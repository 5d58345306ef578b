# Smart-healthcare prescriptions in Dafny

This project models the part of the smart-healthcare system that protects and governs e-prescriptions, and proves properties of that model. A prescription is written by a doctor, signed over its plaintext, encrypted field by field, and read back by patient, doctor and admin views that decrypt it and check its signature. An admin can revoke it, one way only. The model also covers the small codecs and browser-side rules around that lifecycle.

The backend (Express over MongoDB) is modelled as follows:

- `CryptoFacade` (`utils/crypto.js`):
  - AES-256-CBC under a fixed SHA-256 key and an all-zero IV, with HMAC-SHA256 signing;
  - the Diffie-Hellman slots `dhInstance` and `sharedSessionKey`, as the class `CryptoFacade.KeyExchange` whose methods are `generateDHKeys` and `computeSharedKey`;
  - the session helpers that fall back to the fixed key until a shared key exists.
- `RandomIvCodec` (`utils/signature.js`): the random-IV `hex(iv):hex(ct)` codec that fails closed to `""`, and its signer.
- `AppointmentRoutes`, `AdminRoutes` and `AuthRoutes`: the route handlers as functions from a document store (`Store.Db`, one sequence per collection) and a request to a new store and a reply. The JSON replies are datatypes.
- `VerifyToken` (`middleware/verifyToken.js`): the bearer-header parser and its dispatch.
- `Encoding` (`utils/encoding.js`): Base64 of UTF-8 text and back.
- `Models`: the three Mongoose schemas as records, with their enumerations, defaults and required fields.

The frontend is modelled as follows:

- `KeyExchangeClient` (`js/keyExchange.js`): the two byte loops, as methods over `array<Byte>`, and the fully caught `startKeyExchange`.
- The four pages:
  - `AdminDashboard` (`js/admin-dashboard.js`);
  - `DoctorDashboard` (`js/doctor-dashboard.js`);
  - `Dashboard` (`js/dashboard.js`);
  - `Records` (`js/records.js`).

  Each page is reduced to the values it would show. The page's module-level variables are a class, and each loader or filter is a method proved against a specification function.

Supporting modules implement the standards the code relies on, with their round trips:

- `Utf8`: UTF-8, RFC 3629;
- `Octets` and `Hex`: Node's `"hex"` encoding;
- `Base64`: RFC 4648 section 4, together with Node's lenient decoder and the browser's forgiving `atob`;
- `JsString`: the JavaScript string built-ins the pages use;
- `Seqs`: `filter`, `slice`, first match.

The byte-level primitives are not implemented here. AES-256-CBC (FIPS 197 with section 6.2 of NIST SP 800-38A and PKCS#7 padding), SHA-256 (FIPS 180-4), HMAC-SHA256 (RFC 2104) and the Diffie-Hellman computation are fields of `NodeCrypto.Library`, a record of functions. The predicate `NodeCrypto.Sound` states what the model assumes of them:

- decryption undoes encryption under the same 32-byte key and 16-byte IV;
- the ciphertext length follows PKCS#7;
- digests are 32 bytes.

Every result that needs these assumptions requires `Sound(lib)`.

Randomness, clocks and the environment are parameters:

- IVs, OTP offsets, key pairs and new ids;
- `now` in milliseconds, and date inputs as day numbers;
- environment variables.

Where one part of the code falls short of what another part shows is meant, the model follows the code as written and records the gap under "## Findings". The admin page's `filterDateFrom` bound keeps its whole day but the `filterDateTo` bound drops most of its own day. The Base64-id PDF route lacks the revocation check that the plain PDF route makes (smart-healthcare-backend/routes/appointmentRoutes.js:246-251).

## Model

| member | source | states |
|---|---|---|
| CryptoFacade.KeyBytesAreUtf8 | smart-healthcare-backend/utils/crypto.js:7-10 | the key-material byte constants are exactly the UTF-8 encodings of "medicare-secret-key" and "medicare-sign-key" |
| CryptoFacade.StaticKey | smart-healthcare-backend/utils/crypto.js:7-10 | `SECRET_KEY` is a 32-byte SHA-256 digest |
| CryptoFacade.EncryptUnder | smart-healthcare-backend/utils/crypto.js:15-20 | the ciphertext is lower-case hex of whole padded blocks: 32 digits per started 16-byte block of the UTF-8 text, plus a full padding block when the text is block-aligned |
| CryptoFacade.DecryptUnder | smart-healthcare-backend/utils/crypto.js:23-28 | a missing input throws the "data must be a string" error and an odd-length hex string is refused |
| CryptoFacade.DecryptEncryptUnder | smart-healthcare-backend/utils/crypto.js:15-28 | decrypting under a key what was encrypted under the same key gives the text back |
| CryptoFacade.StaticRoundTrip | smart-healthcare-backend/utils/crypto.js:15-28 | `decrypt(encrypt(t)) == t` for every string `t` |
| CryptoFacade.Encrypt | smart-healthcare-backend/utils/crypto.js:15-20 | `encrypt` gives lower-case hex of the padded ciphertext, one 32-digit block per started 16 bytes of UTF-8 plus one; its inverse is `CryptoFacade.StaticRoundTrip` |
| CryptoFacade.Decrypt | smart-healthcare-backend/utils/crypto.js:23-28 | `decrypt` throws for a missing field and for odd-length hex; that it undoes `encrypt` is `CryptoFacade.StaticRoundTrip` |
| CryptoFacade.StaticEncryptInjective | smart-healthcare-backend/utils/crypto.js:15-20 | with the fixed key and zero IV, equal ciphertexts mean equal plaintexts, and conversely |
| CryptoFacade.SignData | smart-healthcare-backend/utils/crypto.js:31-36 | the HMAC signature is 64 lower-case hex digits |
| CryptoFacade.VerifySignatureExactly | smart-healthcare-backend/utils/crypto.js:39-42 | `verifySignature` accepts exactly the signature `signData` computes, and never a missing or empty one |
| CryptoFacade.PublicParams | smart-healthcare-backend/utils/crypto.js:52-61 | the returned public key is the hex of the generated key |
| CryptoFacade.Init | smart-healthcare-backend/utils/crypto.js:52-61 | `generateDHKeys` replaces `dhInstance` and leaves `sharedSessionKey` as it was |
| CryptoFacade.SessionKeyFromSecret | smart-healthcare-backend/utils/crypto.js:75-78 | the derived session key is a 32-byte digest |
| CryptoFacade.Complete | smart-healthcare-backend/utils/crypto.js:64-81 | without a DH instance it throws "DH keys not initialized"; with one it succeeds exactly when `computeSecret` accepts the client's hex key, and otherwise throws; success stores SHA-256 of the hex of the secret as `sharedSessionKey` and returns that key's hex; a failure changes nothing; `dhInstance` is never changed |
| CryptoFacade.StepKeepsValid | smart-healthcare-backend/utils/crypto.js:48-81 | each request keeps the slot invariant and never resets a derived key |
| CryptoFacade.RunKeepsKey | smart-healthcare-backend/utils/crypto.js:48-81 | over any sequence of requests the invariant holds and a derived key stays present |
| CryptoFacade.RunAppend | smart-healthcare-backend/utils/crypto.js:48-81 | running two request sequences one after the other is running their concatenation |
| CryptoFacade.FallbackNeverAfterSuccess | smart-healthcare-backend/utils/crypto.js:94-124 | after one successful `computeSharedKey`, later requests never reach the static fallback |
| CryptoFacade.CompleteBeforeInit | smart-healthcare-backend/utils/crypto.js:65-67 | completing at start-up throws and leaves both slots `null` |
| CryptoFacade.InitKeepsSessionKey | smart-healthcare-backend/utils/crypto.js:52-81 | a fresh key pair keeps the old session key, and a failed completion after it leaves that old key in use |
| CryptoFacade.SessionEncrypt | smart-healthcare-backend/utils/crypto.js:94-108 | `encryptWithSessionKey` gives lower-case hex of whole blocks under the active key; `CryptoFacade.SessionFallback` and `CryptoFacade.SessionRoundTrip` relate it to `encrypt` and to its inverse |
| CryptoFacade.SessionDecrypt | smart-healthcare-backend/utils/crypto.js:111-124 | `decryptWithSessionKey` throws for a missing field and for odd-length hex; `CryptoFacade.SessionRoundTrip` states that it undoes session encryption |
| CryptoFacade.ActiveKey | smart-healthcare-backend/utils/crypto.js:94-98 | the session helpers use a 32-byte key: the stored `sharedSessionKey` when there is one, `SECRET_KEY` when there is none |
| CryptoFacade.SessionFallback | smart-healthcare-backend/utils/crypto.js:94-114 | without a shared key both session helpers are exactly `encrypt` and `decrypt` |
| CryptoFacade.SessionRoundTrip | smart-healthcare-backend/utils/crypto.js:94-124 | with the key state held fixed, session decryption undoes session encryption |
| CryptoFacade.KeyExchange.constructor | smart-healthcare-backend/utils/crypto.js:48-49 | both module slots, `dhInstance` and `sharedSessionKey`, start out `null`, which satisfies the slot invariant |
| CryptoFacade.KeyExchange.GenerateDHKeys | smart-healthcare-backend/utils/crypto.js:52-61 | the object's slots become `Init` of the old ones; the slot invariant is kept; it returns the public parameters |
| CryptoFacade.KeyExchange.ComputeSharedKey | smart-healthcare-backend/utils/crypto.js:64-81 | new slots and result are exactly `Complete` of the old slots; the slot invariant is kept |
| NodeCrypto.HexInput | smart-healthcare-backend/utils/signature.js:34 | `update(s, "hex")` refuses exactly the odd-length strings and otherwise reads Node's lenient hex |
| NodeCrypto.HexInputEncode | smart-healthcare-backend/utils/signature.js:34 | the hex of any bytes is accepted and read back as those bytes |
| NodeCrypto.Cipher | smart-healthcare-backend/utils/signature.js:17-20 | `createCipheriv` throws unless the key has 32 bytes and the IV 16; the ciphertext is the PKCS#7-padded length |
| NodeCrypto.Decipher | smart-healthcare-backend/utils/signature.js:33-35 | success needs a 32-byte key and a 16-byte IV; an empty ciphertext, or one that is not whole blocks, is refused |
| NodeCrypto.DecipherCipher | smart-healthcare-backend/utils/signature.js:17-35 | deciphering under the same key and IV undoes ciphering |
| RandomIvCodec.EnvOr | smart-healthcare-backend/utils/signature.js:7 | an environment variable with its fallback: an unset or empty variable gives the fallback, any other value itself |
| RandomIvCodec.SecretKey | smart-healthcare-backend/utils/signature.js:5-8 | the key is the 32-byte SHA-256 of the secret |
| RandomIvCodec.Encrypt | smart-healthcare-backend/utils/signature.js:13-23 | the result is empty exactly for a falsy input |
| RandomIvCodec.Decrypt | smart-healthcare-backend/utils/signature.js:26-42 | a falsy input gives "" |
| RandomIvCodec.EncryptFormat | smart-healthcare-backend/utils/signature.js:16-22 | a non-empty text encrypts to 32 lower-case hex digits of IV, a colon, then the hex of whole ciphertext blocks |
| RandomIvCodec.DecryptEncrypt | smart-healthcare-backend/utils/signature.js:13-42 | a non-empty text encrypted with any IV decrypts back to itself |
| RandomIvCodec.DecryptPartsHex | smart-healthcare-backend/utils/signature.js:30-37 | the hex of an IV and of a ciphertext that deciphers to `m` decrypts to the UTF-8 reading of `m` |
| RandomIvCodec.DecryptPartsOf | smart-healthcare-backend/utils/signature.js:30-37 | the `try` body gives the plaintext once the IV piece decodes to 16 bytes and the second piece to a ciphertext that deciphers |
| RandomIvCodec.DecryptMalformed | smart-healthcare-backend/utils/signature.js:29-41 | text without a colon, or whose IV piece is not 16 bytes, decrypts to "" |
| RandomIvCodec.SignData | smart-healthcare-backend/utils/signature.js:50-55 | the signature is 64 lower-case hex digits |
| RandomIvCodec.VerifySignatureExactly | smart-healthcare-backend/utils/signature.js:58-63 | a signature verifies exactly when it is the data's own, and a falsy one never does |
| Encoding.EncodeBase64 | smart-healthcare-backend/utils/encoding.js:11-13 | the output is padded Base64 of the UTF-8 bytes: four alphabet characters per started three bytes |
| Encoding.DecodeBase64 | smart-healthcare-backend/utils/encoding.js:15-17 | decoding never produces more characters than it reads |
| Encoding.DecodeEncode | smart-healthcare-backend/utils/encoding.js:11-17 | `decodeBase64(encodeBase64(s)) == s` for every string |
| Encoding.EncodeInjective | smart-healthcare-backend/utils/encoding.js:11-13 | distinct strings have distinct encodings |
| Encoding.EncodeEmpty | smart-healthcare-backend/utils/encoding.js:11-13 | the empty string encodes to the empty string |
| VerifyToken.Verify | smart-healthcare-backend/middleware/verifyToken.js:3-52 | a missing header answers "No token provided", one without the `Bearer ` prefix "Invalid token format"; `next` is called only for a Bearer header whose second space-separated piece is non-empty and verifies, with exactly the decoded claims |
| VerifyToken.BearerDispatch | smart-healthcare-backend/middleware/verifyToken.js:24-38 | `Bearer <token>` with a non-empty token free of spaces hands that token to `jwt.verify` |
| VerifyToken.EmptyTokenPiece | smart-healthcare-backend/middleware/verifyToken.js:24-32 | nothing after the prefix, or a doubled space, leaves the token empty: "Token missing" |
| VerifyToken.SchemeIsCaseSensitive | smart-healthcare-backend/middleware/verifyToken.js:16-21 | a lower-case `bearer` is refused as a malformed header |
| Models.CanonicalId | smart-healthcare-backend/models/Appointment.js:14-18 | the stored spelling of an ObjectId keeps its length and digit values, in lower case |
| Models.CanonicalIdOfStored | smart-healthcare-backend/models/Appointment.js:14-18 | an id already in lower-case hex is its own canonical form |
| Models.NewAppointment | smart-healthcare-backend/models/Appointment.js:36-66 | a created appointment is `Booked` with the unrevoked default prescription path, and keeps the given id, doctor and time |
| Models.RoleName | smart-healthcare-backend/models/User.js:23-27 | each role's name reads back as that role |
| Models.RoleOf | smart-healthcare-backend/models/User.js:23-27 | exactly "patient", "doctor" and "admin" name a role |
| Store.FindId | smart-healthcare-backend/models/Appointment.js:68-70 | `findById` throws a cast error exactly for a malformed id, and otherwise finds the document with that canonical id or reports none |
| Store.UserByEmail | smart-healthcare-backend/models/User.js:11-16 | `findOne({ email })` finds a user with that e-mail, or there is none |
| Store.DoctorByEmail | smart-healthcare-backend/models/Doctor.js:8-12 | `findOne({ email })` finds a doctor with that e-mail, or there is none |
| Store.UserByRole | smart-healthcare-backend/models/User.js:23-27 | `findOne({ role })` finds a user with that role, or there is none |
| Store.Database.constructor | smart-healthcare-backend/models/Appointment.js:68-70 | the store object holds exactly the given appointment, doctor and user collections |
| Store.Database.FindAppointment | smart-healthcare-backend/routes/appointmentRoutes.js:173 | the scan computes exactly `FindId` on the appointment ids |
| Store.Database.FindDoctor | smart-healthcare-backend/routes/appointmentRoutes.js:30 | the scan computes exactly `FindId` on the doctor ids |
| Store.Database.FindUser | smart-healthcare-backend/routes/adminRoutes.js:225 | the scan computes exactly `FindId` on the user ids |
| Store.Database.FindDoctorByEmail | smart-healthcare-backend/routes/appointmentRoutes.js:118 | the scan computes exactly `DoctorByEmail` |
| Store.Database.FindUserByRole | smart-healthcare-backend/routes/authRoutes.js:42 | the scan computes exactly `UserByRole` |
| Store.Database.FindUserByEmail | smart-healthcare-backend/routes/authRoutes.js:35 | the scan computes exactly `UserByEmail` |
| AppointmentRoutes.Book | smart-healthcare-backend/routes/appointmentRoutes.js:22-55 | a missing required field (all but `disease`) answers "All fields are required"; success iff all are present and the doctor exists; a refusal changes nothing; success appends one new appointment for that doctor |
| AppointmentRoutes.BookKeepsValid | smart-healthcare-backend/routes/appointmentRoutes.js:35-43 | a booking with a fresh id keeps ids unique and the required fields filled, and the new appointment is `Booked` and unrevoked |
| AppointmentRoutes.Cancel | smart-healthcare-backend/routes/appointmentRoutes.js:171-187 | success iff `findById` finds the appointment; a malformed id is a 500; only that appointment's status changes, to `Cancelled`, whatever it was |
| AppointmentRoutes.CancelIdempotent | smart-healthcare-backend/routes/appointmentRoutes.js:171-187 | cancelling keeps the store valid, and cancelling twice is cancelling once |
| AppointmentRoutes.AdviceText | smart-healthcare-backend/routes/appointmentRoutes.js:214 | the stored advice, or "" in its place, is empty exactly for a falsy advice |
| AppointmentRoutes.SealPrescription | smart-healthcare-backend/routes/appointmentRoutes.js:213-223 | the new prescription is unrevoked, dated now, signed over the plaintexts and the id, and stores an empty advice exactly when the advice is falsy |
| AppointmentRoutes.AddPrescription | smart-healthcare-backend/routes/appointmentRoutes.js:190-234 | missing diagnosis or medicines is refused first; success iff both are present and the appointment exists unrevoked; a refusal changes nothing; success replaces only that appointment, by the sealed prescription and status `Completed` |
| AppointmentRoutes.AddPrescriptionKeepsRevoked | smart-healthcare-backend/routes/appointmentRoutes.js:206-211 | no request ever changes a revoked appointment |
| AppointmentRoutes.AddPrescriptionKeepsValid | smart-healthcare-backend/routes/appointmentRoutes.js:217-226 | writing a prescription keeps the store valid |
| AppointmentRoutes.OpenPrescription | smart-healthcare-backend/routes/appointmentRoutes.js:78-83 | a missing diagnosis or medicines throws inside the `try`; a falsy advice is read as "" without decrypting |
| AppointmentRoutes.PatientPrescription | smart-healthcare-backend/routes/appointmentRoutes.js:72-97 | a revoked prescription becomes the bare `{ isRevoked: true }`; otherwise `isValid` is set and `isEditable` is not; a failed decryption leaves the fields and sets `isValid` false |
| AppointmentRoutes.DoctorPrescription | smart-healthcare-backend/routes/appointmentRoutes.js:132-158 | a revoked prescription is left encrypted and marked not editable; `isEditable` is true exactly when it is unrevoked and decrypts; a failed decryption sets `isValid` false |
| AppointmentRoutes.PatientList | smart-healthcare-backend/routes/appointmentRoutes.js:58-101 | the list is no longer than the store and holds only that patient's uncancelled appointments; membership and order in full are `AppointmentRoutes.PatientListIsProjection` |
| AppointmentRoutes.DoctorList | smart-healthcare-backend/routes/appointmentRoutes.js:123-162 | the list is no longer than the store and holds only appointments filed under that doctor id; membership and order in full are `AppointmentRoutes.DoctorListIsProjection` |
| AppointmentRoutes.PatientView | smart-healthcare-backend/routes/appointmentRoutes.js:67-98 | each listed document keeps its fields and carries the Base64 of its id as `encodedId` |
| AppointmentRoutes.DoctorView | smart-healthcare-backend/routes/appointmentRoutes.js:127-159 | the same for the doctor route |
| AppointmentRoutes.PatientListIsProjection | smart-healthcare-backend/routes/appointmentRoutes.js:58-101 | `GET /my/:email` answers the projection of exactly that patient's uncancelled appointments, in store order |
| AppointmentRoutes.DoctorListIsProjection | smart-healthcare-backend/routes/appointmentRoutes.js:123-162 | `GET /doctor/:value` answers the projection of exactly that doctor's appointments, every status, in store order |
| AppointmentRoutes.DoctorKey | smart-healthcare-backend/routes/appointmentRoutes.js:110-121 | an ObjectId value is used as the doctor id without a lookup; any other value is looked up as an email, and an unknown email gives the empty list |
| AppointmentRoutes.PatientAppointments | smart-healthcare-backend/routes/appointmentRoutes.js:58-101 | the handler's loop computes exactly the patient list |
| AppointmentRoutes.DoctorAppointments | smart-healthcare-backend/routes/appointmentRoutes.js:110-162 | an e-mail no doctor has gives `[]`; otherwise the answer is the projection of exactly the appointments filed under the resolved key (an ObjectId as given, or the found doctor's id), in store order |
| AppointmentRoutes.DoctorAppointmentsHandler | smart-healthcare-backend/routes/appointmentRoutes.js:110-162 | the handler computes exactly the doctor list of the resolved key, or the empty list |
| AppointmentRoutes.DoctorListLoop | smart-healthcare-backend/routes/appointmentRoutes.js:123-160 | the doctor route's loop computes exactly the doctor list |
| AppointmentRoutes.WriteThenRead | smart-healthcare-backend/routes/appointmentRoutes.js:213-223 | a prescription written and read back under the same session key gives the plaintexts with `isValid` true, to the patient and (editable) to the doctor |
| AppointmentRoutes.OpenSealed | smart-healthcare-backend/routes/appointmentRoutes.js:79-83 | decrypting a sealed prescription recovers its three plaintexts |
| AppointmentRoutes.OpenFields | smart-healthcare-backend/routes/appointmentRoutes.js:79-83 | the three decryptions succeed together when each field decrypts |
| AppointmentRoutes.AddThenPatientView | smart-healthcare-backend/routes/appointmentRoutes.js:190-234 | after a successful write the appointment is `Completed` and the patient sees the plaintexts with a valid signature |
| AppointmentRoutes.RevokedHiddenFromPatient | smart-healthcare-backend/routes/appointmentRoutes.js:72-76 | a revoked prescription reaches the patient as the bare notice and the doctor as not editable |
| AppointmentRoutes.DoctorName | smart-healthcare-backend/routes/appointmentRoutes.js:239-240 | `populate("doctor")` yields a name exactly when the referenced doctor exists |
| AppointmentRoutes.RenderPdf | smart-healthcare-backend/routes/appointmentRoutes.js:253-279 | a document is rendered exactly when the diagnosis, the medicines and a present advice decrypt, the patient name is a legal header value for `setHeader` (tab, U+0020-U+007E, U+0080-U+00FF), and the doctor exists; any other case is the route's failure reply; a document carries the appointment's patient name |
| AppointmentRoutes.PrescriptionPdf | smart-healthcare-backend/routes/appointmentRoutes.js:237-280 | a malformed id is 500 "Server error" (the cast error is caught); a missing appointment or prescription is a 404, a revoked one a 403; an unrevoked one is exactly `RenderPdf` with "Server error" as its failure, so the decryptions, the header and the doctor lookup decide between the document and that 500 |
| AppointmentRoutes.EncodedPrescriptionPdf | smart-healthcare-backend/routes/appointmentRoutes.js:283-320 | the encoded route, as written: the id is Base64-decoded; a malformed decoded id is 500 `{ success: false }`; a missing appointment or prescription is a 404; there is no revocation check; a found prescription gets the same rendering, with 500 `{ success: false }` as its failure |
| AppointmentRoutes.EncodedPdfIgnoresRevocation | smart-healthcare-backend/routes/appointmentRoutes.js:283-320 | for a revoked prescription whose patient name is a legal header value, the plain route answers 403 but the encoded route still renders the decrypted texts |
| AppointmentRoutes.RenderOpened | smart-healthcare-backend/routes/appointmentRoutes.js:294-315 | a prescription whose fields decrypt, of an existing doctor and a patient name the header accepts, renders exactly those texts |
| AppointmentRoutes.UnsafeNamePdfFails | smart-healthcare-backend/routes/appointmentRoutes.js:237-320 | a patient name `setHeader` refuses (a character above U+00FF, a line break) gets 500 "Server error" from the plain route for every unrevoked prescription and 500 `{ success: false }` from the encoded route |
| AppointmentRoutes.EncodedPrescriptionPdfChecked | smart-healthcare-backend/routes/appointmentRoutes.js:246-251 | the encoded route with the plain route's check: the same 500 and 404 cases, every revoked prescription refused with 403, and an unrevoked one exactly `RenderPdf` with 500 `{ success: false }` as its failure |
| AppointmentRoutes.StoredPrescriptionPresent | smart-healthcare-backend/routes/appointmentRoutes.js:237-320 | in a valid store neither PDF route answers "Prescription not found" for a stored id, and both read projections carry the prescription path |
| AppointmentRoutes.UnprescribedPdfFails | smart-healthcare-backend/routes/appointmentRoutes.js:237-320 | for a booked appointment never prescribed, both PDF routes decrypt an undefined field and answer with their 500 reply |
| AppointmentRoutes.CheckedPdfRoutesAgree | smart-healthcare-backend/routes/appointmentRoutes.js:237-320 | with the check, both PDF routes refuse a revoked prescription with 403; on an unrevoked one they render the same document, or both refuse with their own 500 replies ("Server error" on the plain route, an empty message on the encoded one) |
| AppointmentRoutes.FindStoredId | smart-healthcare-backend/routes/appointmentRoutes.js:201 | in a valid store, `findById` of a stored id finds its own document |
| AppointmentRoutes.AuditRows | smart-healthcare-backend/routes/appointmentRoutes.js:329-341 | the rows exist exactly when no listed appointment has a dangling doctor; there is one row per appointment with a prescription path, with `isValid` the truthiness of the signature |
| AppointmentRoutes.AdminPrescriptions | smart-healthcare-backend/routes/appointmentRoutes.js:323-347 | a non-admin gets a 403; an admin gets exactly the audit rows whenever they exist (no dangling doctor), and otherwise the 500 reply |
| AppointmentRoutes.AuditRevokedNeverValid | smart-healthcare-backend/routes/appointmentRoutes.js:339-340 | in a valid store no audit row is both revoked and valid |
| AppointmentRoutes.BookHandler | smart-healthcare-backend/routes/appointmentRoutes.js:22-55 | the store and the reply are exactly `Book` of the old store |
| AppointmentRoutes.CancelHandler | smart-healthcare-backend/routes/appointmentRoutes.js:171-187 | the store and the reply are exactly `Cancel` of the old store |
| AppointmentRoutes.AddPrescriptionHandler | smart-healthcare-backend/routes/appointmentRoutes.js:190-234 | the store and the reply are exactly `AddPrescription` of the old store |
| AuthRoutes.UpdateKeepsValid | smart-healthcare-backend/models/User.js:3-38 | changing one user while keeping its id, e-mail and role keeps the collection valid (unique ids and e-mails, at most one admin) |
| AuthRoutes.UpdateKeepsEmailLookup | smart-healthcare-backend/routes/authRoutes.js:77 | `User.findOne({ email })` does not see changes to a user that keep its e-mail |
| AuthRoutes.NewUser | smart-healthcare-backend/routes/authRoutes.js:53-58 | a new user carries the form's e-mail and no OTP |
| AuthRoutes.Register | smart-healthcare-backend/routes/authRoutes.js:27-66 | an incomplete form and an existing e-mail are refused first; success iff the form is complete, the e-mail is new, an admin registration finds no admin, and the document passes the schema; a refusal changes nothing; success appends exactly the new user |
| AuthRoutes.RegisterKeepsValid | smart-healthcare-backend/routes/authRoutes.js:40-49 | registration keeps the collection valid, so a second admin is never created |
| AuthRoutes.AppendKeepsValid | smart-healthcare-backend/routes/authRoutes.js:53-58 | appending a well-formed user with a new id and e-mail, and no second admin, keeps the collection valid |
| AuthRoutes.SecondAdminRefused | smart-healthcare-backend/routes/authRoutes.js:41-48 | with an admin present, a complete admin registration under a new e-mail is refused with "Admin already exists" |
| AuthRoutes.OtpCode | smart-healthcare-backend/routes/authRoutes.js:87 | the code is six decimal digits, between 100000 and 999999 |
| AuthRoutes.IssueOtp | smart-healthcare-backend/routes/authRoutes.js:89-91 | the user gets that code and an expiry five minutes from now, and nothing else changes |
| AuthRoutes.Issue | smart-healthcare-backend/routes/authRoutes.js:129-138 | an unknown e-mail changes nothing; a known one gets a fresh OTP |
| AuthRoutes.Login | smart-healthcare-backend/routes/authRoutes.js:69-118 | missing e-mail or password is refused first; success iff the user exists and the password matches its hash; a refusal changes nothing; success stores a fresh OTP and its expiry on that user and changes nothing else |
| AuthRoutes.ResendOtp | smart-healthcare-backend/routes/authRoutes.js:121-161 | a missing e-mail is refused; success iff the user exists; a refusal changes nothing; a success stores a fresh OTP (100000 plus the offset) and an expiry five minutes on for exactly that user |
| AuthRoutes.ForgotPassword | smart-healthcare-backend/routes/authRoutes.js:255-295 | the same rules as resend-otp, with its own messages: a missing e-mail is refused, success iff the user exists, and a success stores a fresh OTP and an expiry five minutes on for exactly that user |
| AuthRoutes.MailOutcomeIgnored | smart-healthcare-backend/routes/authRoutes.js:93-106 | whether the mail is delivered changes neither the store nor the reply of the three issuing routes |
| AuthRoutes.IssueKeepsValid | smart-healthcare-backend/routes/authRoutes.js:89-91 | issuing an OTP keeps the collection valid |
| AuthRoutes.ClearOtp | smart-healthcare-backend/routes/authRoutes.js:178-179 | the OTP and its expiry become null and nothing else changes |
| AuthRoutes.VerifyOtp | smart-healthcare-backend/routes/authRoutes.js:164-203 | a missing e-mail or OTP is refused first; success iff the user exists, holds that OTP and it has not expired; success clears the OTP and signs `{ id, role }` of that user |
| AuthRoutes.ResetPassword | smart-healthcare-backend/routes/authRoutes.js:298-323 | a missing field is refused first; success iff the OTP is accepted; success stores the new hash and clears the OTP |
| AuthRoutes.VerifyOtpKeepsValid | smart-healthcare-backend/routes/authRoutes.js:178-180 | verify-otp keeps the collection valid |
| AuthRoutes.ResetPasswordKeepsValid | smart-healthcare-backend/routes/authRoutes.js:312-315 | reset-password keeps the collection valid |
| AuthRoutes.IssuedOtpVerifies | smart-healthcare-backend/routes/authRoutes.js:87-91 | after a successful login, verify-otp with the issued code succeeds exactly until five minutes have passed |
| AuthRoutes.ResentOtpVerifies | smart-healthcare-backend/routes/authRoutes.js:121-161 | after a successful resend, verify-otp with the resent code succeeds exactly until five minutes have passed |
| AuthRoutes.ForgotThenReset | smart-healthcare-backend/routes/authRoutes.js:255-295 | after a successful forgot-password, reset-password with the mailed code and a new password succeeds exactly until five minutes have passed, and stores the new hash for that user |
| AuthRoutes.OtpSingleUse | smart-healthcare-backend/routes/authRoutes.js:174-179 | once verify-otp or reset-password has accepted an OTP, neither accepts it again |
| AuthRoutes.TokenCarriesRole | smart-healthcare-backend/routes/authRoutes.js:183-187 | the signed payload passes the admin role check exactly when the user is the admin |
| AuthRoutes.KeyExchangeInit | smart-healthcare-backend/routes/authRoutes.js:210-226 | the route replaces the DH instance and answers its public parameters |
| AuthRoutes.KeyExchangeComplete | smart-healthcare-backend/routes/authRoutes.js:229-252 | a missing key is refused before any crypto; otherwise the slots are exactly those of `computeSharedKey`, the reply succeeds iff it did, and a thrown error answers 500 "Key exchange failed" |
| AuthRoutes.KeyExchangeCompleteRoute | smart-healthcare-backend/routes/authRoutes.js:229-252 | the slots and reply are exactly `KeyExchangeComplete` of the old slots |
| AuthRoutes.RegisterHandler | smart-healthcare-backend/routes/authRoutes.js:27-66 | the store and the reply are exactly `Register` of the old store |
| AuthRoutes.IssueHandler | smart-healthcare-backend/routes/authRoutes.js:129-138 | the store and the reply are exactly `Issue` of the old store |
| AuthRoutes.LoginHandler | smart-healthcare-backend/routes/authRoutes.js:69-118 | the store and the reply are exactly `Login` of the old store |
| AuthRoutes.ResendOtpHandler | smart-healthcare-backend/routes/authRoutes.js:121-161 | the store and the reply are exactly `ResendOtp` of the old store |
| AuthRoutes.ForgotPasswordHandler | smart-healthcare-backend/routes/authRoutes.js:255-295 | the store and the reply are exactly `ForgotPassword` of the old store |
| AuthRoutes.VerifyOtpHandler | smart-healthcare-backend/routes/authRoutes.js:164-203 | the store, reply and payload are exactly `VerifyOtp` of the old store |
| AuthRoutes.ResetPasswordHandler | smart-healthcare-backend/routes/authRoutes.js:298-323 | the store and the reply are exactly `ResetPassword` of the old store |
| AdminRoutes.CreateDoctor | smart-healthcare-backend/models/Doctor.js:3-21 | creation succeeds iff name, e-mail and specialization are non-empty and the e-mail is new; any failure is the 500 reply with no change; success appends exactly that document |
| AdminRoutes.AddDoctor | smart-healthcare-backend/routes/adminRoutes.js:8-58 | as written: a non-admin gets 403 and a missing name or specialization the validation message, with no change |
| AdminRoutes.AddDoctorNeverAdds | smart-healthcare-backend/routes/adminRoutes.js:36-43 | as written the route never adds a doctor: `Doctor.create` gets no e-mail, so even an admin's complete form ends in the 500 reply |
| AdminRoutes.AddDoctorCorrected | smart-healthcare-backend/routes/adminRoutes.js:8-58 | with the e-mail passed on: success iff the caller is admin, name, specialization and e-mail are present and the e-mail is new; success appends exactly the one document |
| AdminRoutes.AddDoctorCorrectedKeepsValid | smart-healthcare-backend/routes/adminRoutes.js:36-43 | the corrected route keeps doctor ids and e-mails unique and the required fields filled |
| AdminRoutes.RolesPartition | smart-healthcare-backend/models/User.js:23-27 | every user has exactly one of the three roles, so the three role counts add up to all users |
| AdminRoutes.UsersStats | smart-healthcare-backend/routes/adminRoutes.js:64-83 | a 403 exactly for a non-admin; otherwise the total is every user, the doctor and patient counts are the numbers of users with those roles, and the total is those two plus the admins |
| AdminRoutes.AppointmentsTotal | smart-healthcare-backend/routes/adminRoutes.js:86-101 | a 403 exactly for a non-admin; otherwise every appointment, whatever its status |
| AdminRoutes.UsersStatsV2 | smart-healthcare-backend/routes/adminRoutes.js:159-178 | a 403 exactly for a non-admin; doctors counts Doctor documents, patients the patient users, and total is their sum plus one |
| AdminRoutes.UsersStatsAgree | smart-healthcare-backend/routes/adminRoutes.js:159-178 | the two user statistics agree when there is exactly one admin and one Doctor document per doctor user |
| AdminRoutes.AppointmentsTotalV2 | smart-healthcare-backend/routes/adminRoutes.js:181-198 | a 403 exactly for a non-admin; otherwise the appointments not cancelled |
| AdminRoutes.ActivePlusCancelled | smart-healthcare-backend/routes/adminRoutes.js:187-189 | the active count and the cancelled count add up to all appointments |
| AdminRoutes.AppointmentTotalsAgree | smart-healthcare-backend/routes/adminRoutes.js:86-198 | the v2 total plus the cancelled appointments is the v1 total |
| AdminRoutes.LegacyPrescriptions | smart-healthcare-backend/routes/adminRoutes.js:104-128 | a 403 exactly for a non-admin; one row per appointment with a prescription path |
| AdminRoutes.LegacyNeverValid | smart-healthcare-backend/routes/adminRoutes.js:110-119 | the legacy list calls no row valid and names every doctor "N/A", because it reads paths the schema does not define |
| AdminRoutes.DoctorLabel | smart-healthcare-backend/routes/adminRoutes.js:146 | the doctor label, with "N/A" in place of a missing name, is never empty, and is the doctor's name when that exists and is non-empty |
| AdminRoutes.PrescriptionsV2 | smart-healthcare-backend/routes/adminRoutes.js:131-156 | a 403 exactly for a non-admin; otherwise one row per appointment with a prescription path, in store order, carrying that appointment's id, patient name and `createdAt`, `isValid` iff a signature is present, its revocation flag, and the doctor's name or "N/A" |
| AdminRoutes.PrescriptionsV2Refines | smart-healthcare-backend/routes/adminRoutes.js:131-156 | wherever the audit list of the appointment routes answers, the v2 list has the same rows, with the id added |
| AdminRoutes.PrescriptionsV2RevokedNeverValid | smart-healthcare-backend/routes/adminRoutes.js:148-149 | in a valid store no v2 row is both revoked and valid |
| AdminRoutes.RemoveAt | smart-healthcare-backend/routes/adminRoutes.js:207 | removing one position keeps the others in order |
| AdminRoutes.RemoveKeepsOthers | smart-healthcare-backend/routes/adminRoutes.js:207 | every element at another position survives a removal |
| AdminRoutes.RemoveUnique | smart-healthcare-backend/routes/adminRoutes.js:207 | removing the position of a unique id removes that id, and the rest stay unique |
| AdminRoutes.RemoveDoctor | smart-healthcare-backend/routes/adminRoutes.js:201-216 | a 403 for a non-admin; success iff the caller is admin and the id is an ObjectId, whether or not a document matched; other collections unchanged |
| AdminRoutes.RemoveDoctorRemoves | smart-healthcare-backend/routes/adminRoutes.js:207 | after removal the id is gone, every other doctor remains, and ids stay unique |
| AdminRoutes.RemovePatient | smart-healthcare-backend/routes/adminRoutes.js:219-234 | the same rules for users, whatever the removed user's role |
| AdminRoutes.RemovePatientRemoves | smart-healthcare-backend/routes/adminRoutes.js:225 | after removal the id is gone, every other user remains, and ids stay unique |
| AdminRoutes.Revoker | smart-healthcare-backend/routes/adminRoutes.js:254 | `save` casts `req.user.id` to an ObjectId: a malformed id fails, an absent one unsets the path |
| AdminRoutes.Revoke | smart-healthcare-backend/routes/adminRoutes.js:237-266 | a 403 for a non-admin; a missing appointment or prescription answers "Prescription not found"; success iff the caller is admin, the prescription exists and the actor casts; success stamps only that prescription |
| AdminRoutes.RevokeEffect | smart-healthcare-backend/routes/adminRoutes.js:249-257 | a revocation sets the flag, drops the signature, records actor and time, keeps the encrypted fields, timestamps and status, and keeps the store valid |
| AdminRoutes.RevokeStored | smart-healthcare-backend/routes/adminRoutes.js:243-246 | in a valid store an admin's revoke of a stored appointment never answers "Prescription not found", and succeeds exactly when the actor id casts |
| AdminRoutes.RevokeAgain | smart-healthcare-backend/routes/adminRoutes.js:243-246 | revoking twice succeeds again and restamps actor and time |
| AdminRoutes.RevokeIsFinal | smart-healthcare-backend/routes/adminRoutes.js:237-266 | after a revocation, a new prescription write is refused, the patient sees only the notice, and the plain PDF route answers 403 |
| AdminRoutes.RevokeHandler | smart-healthcare-backend/routes/adminRoutes.js:237-266 | the store and the reply are exactly `Revoke` of the old store |
| AdminRoutes.RemoveDoctorHandler | smart-healthcare-backend/routes/adminRoutes.js:201-216 | the store and the reply are exactly `RemoveDoctor` of the old store |
| AdminRoutes.RemovePatientHandler | smart-healthcare-backend/routes/adminRoutes.js:219-234 | the store and the reply are exactly `RemovePatient` of the old store |
| AdminRoutes.AddDoctorHandler | smart-healthcare-backend/routes/adminRoutes.js:8-58 | the store and the reply are exactly the corrected route's |
| KeyExchangeClient.BinaryString | smart-healthcare-frontend/js/keyExchange.js:80-82 | one character per byte, with the byte as its code, in order |
| KeyExchangeClient.BinaryStringCodes | smart-healthcare-frontend/js/keyExchange.js:65-84 | reading back the char codes of a binary string gives the bytes again |
| KeyExchangeClient.CodesBinaryString | smart-healthcare-frontend/js/keyExchange.js:65-84 | the other direction: a string of codes below 256 is the binary string of its codes |
| KeyExchangeClient.Atob | smart-healthcare-frontend/js/keyExchange.js:66 | `atob` succeeds exactly when forgiving-base64 decoding does, giving the binary string of the bytes |
| KeyExchangeClient.Base64ToArrayBuffer | smart-healthcare-frontend/js/keyExchange.js:65-73 | succeeds exactly when `atob` does, and then fills a fresh array with exactly the decoded bytes |
| KeyExchangeClient.CodesOfBinary | smart-healthcare-frontend/js/keyExchange.js:69-71 | keeping the low eight bits of each char code of a binary string gives its bytes |
| KeyExchangeClient.CharCodeBytes | smart-healthcare-frontend/js/keyExchange.js:67-71 | the loop fills an array of the string's length with each char code modulo 256 |
| KeyExchangeClient.ArrayBufferToBase64 | smart-healthcare-frontend/js/keyExchange.js:76-84 | the loop and `btoa` give exactly the Base64 of the buffer's bytes |
| KeyExchangeClient.BinaryStringAppend | smart-healthcare-frontend/js/keyExchange.js:80-82 | each loop step appends the next byte's character |
| KeyExchangeClient.BufferRoundTrip | smart-healthcare-frontend/js/keyExchange.js:65-84 | the two helpers are inverse: what `arrayBufferToBase64` writes, `base64ToArrayBuffer` reads back as the same bytes |
| KeyExchangeClient.StartKeyExchange | smart-healthcare-frontend/js/keyExchange.js:4-60 | the promise always resolves, since every error is caught; each failing step is the error caught; the client key is posted exactly when init succeeds, generation succeeds, the server key decodes and imports and the export succeeds; it is posted as the Base64 of the exported bytes |
| KeyExchangeClient.MissingServerKeyFails | smart-healthcare-frontend/js/keyExchange.js:14-29 | a reply without `serverPublicKey` always fails in `atob` on the text "undefined", and nothing is posted |
| Base64.Encode | smart-healthcare-backend/utils/encoding.js:12 | padded RFC 4648 Base64: four alphabet characters per started three bytes |
| Base64.NodeDecode | smart-healthcare-backend/utils/encoding.js:16 | Node's lenient decoder never fails and yields at most three bytes per four characters |
| Base64.NodeDecodeEncode | smart-healthcare-backend/utils/encoding.js:12-16 | Node's decoder reads back every encoding |
| Base64.FromToSextets | smart-healthcare-backend/utils/encoding.js:12-16 | splitting bytes into 6-bit values and joining them back is the identity |
| Base64.ForgivingDecode | smart-healthcare-frontend/js/keyExchange.js:66 | a successful `atob` gives at most three bytes per four characters |
| Base64.ForgivingDecodeEncode | smart-healthcare-frontend/js/keyExchange.js:66-83 | `atob` reads back every `btoa` output |
| Base64.ForgivingDecodeRefuses | smart-healthcare-frontend/js/keyExchange.js:66 | input without whitespace whose length is one past a multiple of four is refused |
| Base64.Btoa | smart-healthcare-frontend/js/keyExchange.js:83 | `btoa` fails exactly on a character above U+00FF |
| Base64.CharCodes | smart-healthcare-frontend/js/keyExchange.js:70 | the char codes of a string whose characters are all below U+0100 |
| Hex.Encode | smart-healthcare-backend/utils/signature.js:22 | `buf.toString("hex")` writes two lower-case digits per byte |
| Hex.Decode | smart-healthcare-backend/utils/signature.js:31 | `Buffer.from(s, "hex")` never yields more than one byte per two characters |
| Hex.DecodeEncode | smart-healthcare-backend/utils/signature.js:22-31 | decoding the hex of any bytes gives those bytes |
| Hex.EncodeExcludes | smart-healthcare-backend/utils/signature.js:22-30 | hex text never contains a non-digit, a colon for one, so `split(":")` finds only the separator |
| Utf8.Encode | smart-healthcare-backend/utils/signature.js:19 | UTF-8 of a string, one to four bytes per code point |
| Utf8.Decode | smart-healthcare-backend/utils/signature.js:34-35 | `toString("utf8")` of bytes |
| Utf8.DecodeEncode | smart-healthcare-backend/utils/signature.js:19-35 | decoding the UTF-8 of a string gives the string back |
| Utf8.EncodeInjective | smart-healthcare-backend/utils/crypto.js:17 | distinct strings have distinct UTF-8 encodings |
| AdminDashboard.StatsAddUp | smart-healthcare-frontend/js/admin-dashboard.js:163-166 | the active and revoked cards add up to all rows, and the invalid card never exceeds the active one |
| AdminDashboard.BadgeShownIff | smart-healthcare-frontend/js/admin-dashboard.js:172-178 | the notification badge is displayed exactly when some row is revoked or not validly signed |
| AdminDashboard.SignatureStatus | smart-healthcare-frontend/js/admin-dashboard.js:205-214 | the status cell reads "Revoked" iff the row is revoked, "Verified" iff it is valid and unrevoked, "Invalid" otherwise |
| AdminDashboard.AlertsAreUnverifiedRows | smart-healthcare-frontend/js/admin-dashboard.js:175 | the badge count is exactly the number of rows whose status cell does not read "Verified" |
| AdminDashboard.RenderRow | smart-healthcare-frontend/js/admin-dashboard.js:195-254 | a row shows the "Dr. " label, the revoked badge exactly with the revoked status, and live Edit and Revoke buttons exactly for an unrevoked prescription |
| AdminDashboard.DisplayPrescriptions | smart-healthcare-frontend/js/admin-dashboard.js:182-258 | an empty list shows "No prescriptions match the filters"; otherwise one row per prescription in order, each with its own status |
| AdminDashboard.FilterRows | smart-healthcare-frontend/js/admin-dashboard.js:261-293 | the displayed rows are exactly the stored rows that pass the status, from and to filters |
| AdminDashboard.StatusFiltersMatchStats | smart-healthcare-frontend/js/admin-dashboard.js:164-166 | the "active", "revoked" and "invalid" filters show as many rows as their cards count, and active plus revoked is every row |
| AdminDashboard.NoFilterKeepsAll | smart-healthcare-frontend/js/admin-dashboard.js:295-300 | with no filter every row is shown, in order |
| AdminDashboard.DayBounds | smart-healthcare-frontend/js/admin-dashboard.js:282-288 | a timestamp is at or after a day's midnight iff its UTC day is not earlier, and before the next midnight iff its day is not later |
| AdminDashboard.DateToKeepsOnlyMidnight | smart-healthcare-frontend/js/admin-dashboard.js:286-290 | as written, the "to" filter keeps a row of the chosen day only when it was created at that day's very first millisecond |
| AdminDashboard.DateToDropsItsOwnDay | smart-healthcare-frontend/js/admin-dashboard.js:286-290 | a row created at 00:00:00.001 UTC on the "to" day is filtered out as written, and kept by the corrected filter |
| AdminDashboard.CorrectedDatesInclusive | smart-healthcare-frontend/js/admin-dashboard.js:280-290 | with the corrected bound a row is shown iff it is stored, passes the status filter, and its UTC day lies between the two dates, both inclusive |
| AdminDashboard.EditPrescription | smart-healthcare-frontend/js/admin-dashboard.js:372-392 | a revoked prescription is refused; a cancelled prompt aborts; the request is made exactly when no prompt was cancelled and diagnosis and medicines are non-empty, with the three answers as body |
| AdminDashboard.LiveEditNotRefused | smart-healthcare-frontend/js/admin-dashboard.js:237-239 | a row whose Edit button is live never meets the revoked refusal |
| AdminDashboard.AuditPage.constructor | smart-healthcare-frontend/js/admin-dashboard.js:28 | the page starts with `allPrescriptions = []`, no statistics and the table loading |
| AdminDashboard.AuditPage.LoadPrescriptionAudit | smart-healthcare-frontend/js/admin-dashboard.js:124-160 | a successful non-empty reply stores the list, updates the cards and shows the rows; otherwise the old list and cards stay and the table shows the error or "No prescriptions found" |
| AdminDashboard.AuditPage.ApplyFilters | smart-healthcare-frontend/js/admin-dashboard.js:261-293 | the table shows exactly `FilterRows` of the stored list |
| AdminDashboard.AuditPage.ClearFilters | smart-healthcare-frontend/js/admin-dashboard.js:295-300 | the table shows the whole stored list |
| AdminDashboard.StatusStep | smart-healthcare-frontend/js/admin-dashboard.js:269-277 | the status branch selects exactly the rows the status predicate keeps |
| AdminDashboard.FromStep | smart-healthcare-frontend/js/admin-dashboard.js:280-284 | the "from" branch selects exactly the rows at or after the day's midnight |
| AdminDashboard.ToStep | smart-healthcare-frontend/js/admin-dashboard.js:286-290 | the "to" branch selects exactly the rows at or before the day's midnight |
| AdminDashboard.FilterChain | smart-healthcare-frontend/js/admin-dashboard.js:266-290 | the three filters applied one after another select exactly what `FilterRows` selects |
| DoctorDashboard.TwoDigits | smart-healthcare-frontend/js/doctor-dashboard.js:37-38 | a number below 100 padded to two characters is two decimal digits that read back as the number |
| DoctorDashboard.PadDigits | smart-healthcare-frontend/js/doctor-dashboard.js:37-38 | `padStart(2, '0')` of the decimal string of a number below 100 is exactly `TwoDigits` of it |
| DoctorDashboard.TodayDate | smart-healthcare-frontend/js/doctor-dashboard.js:34-40 | today's date reads `YYYY-MM-DD`: the year's digits, a dash at the two fixed places, and month (1 to 12) and day as two digits each |
| DoctorDashboard.Dashed | smart-healthcare-frontend/js/doctor-dashboard.js:39 | joining a year and two two-character fields with dashes puts the dashes right after the year and three places later |
| DoctorDashboard.PatientCount | smart-healthcare-frontend/js/doctor-dashboard.js:51 | the number of distinct patients is at most the number of appointments and is zero exactly for an empty list |
| DoctorDashboard.EmailsSnoc | smart-healthcare-frontend/js/doctor-dashboard.js:51 | one more appointment adds exactly its patient's email to the set |
| DoctorDashboard.StatisticsBounds | smart-healthcare-frontend/js/doctor-dashboard.js:48-58 | completed today never exceeds today's appointments, and pending, completed and cancelled add up to all appointments |
| DoctorDashboard.VisibleStatuses | smart-healthcare-frontend/js/doctor-dashboard.js:89-103 | a shown appointment is one of the list and never cancelled; the "pending" view shows only booked ones and the "today" view only today's |
| DoctorDashboard.SectionsPartition | smart-healthcare-frontend/js/doctor-dashboard.js:126-263 | every shown appointment is in exactly one of the upcoming and completed sections, and their sizes add up |
| DoctorDashboard.RenderCard | smart-healthcare-frontend/js/doctor-dashboard.js:126-245 | a card keeps the appointment's id and status, has the Today badge iff dated today, the revoked notice iff revoked, and Edit/Download (enabled iff not revoked) iff completed, Write otherwise |
| DoctorDashboard.Cards | smart-healthcare-frontend/js/doctor-dashboard.js:126-264 | one card per appointment |
| DoctorDashboard.CardsAt | smart-healthcare-frontend/js/doctor-dashboard.js:126-264 | the card at each position is the one rendered for the appointment at that position, so the cards keep the list's order |
| DoctorDashboard.DisplayAppointments | smart-healthcare-frontend/js/doctor-dashboard.js:85-276 | the list area shows the empty-state message for the filter when nothing is visible, else the upcoming and completed cards of the visible list, each with its "No ... appointments" note exactly when empty |
| DoctorDashboard.SortIntoSections | smart-healthcare-frontend/js/doctor-dashboard.js:126-272 | the loop puts exactly the cards of the non-completed visible appointments in the upcoming section and of the completed ones in the other, and raises each flag iff its section is non-empty |
| DoctorDashboard.SectionsStep | smart-healthcare-frontend/js/doctor-dashboard.js:257-263 | one more appointment adds its card to the section whose test it passes and leaves the other section unchanged |
| DoctorDashboard.SectionsNext | smart-healthcare-frontend/js/doctor-dashboard.js:257-263 | each step of the loop appends the next card to the completed section when that appointment is completed and to the upcoming one otherwise, leaving the other section as it was |
| DoctorDashboard.CardsAppend | smart-healthcare-frontend/js/doctor-dashboard.js:258-261 | appending an appointment appends its card |
| DoctorDashboard.FieldText | smart-healthcare-frontend/js/doctor-dashboard.js:393-401 | a field that looks encrypted shows as empty, any other present value shows as itself |
| DoctorDashboard.AdviceText | smart-healthcare-frontend/js/doctor-dashboard.js:403-406 | the advice shows as empty when absent, empty or encrypted-looking, and as itself otherwise |
| DoctorDashboard.SessionCiphertextShape | smart-healthcare-frontend/js/doctor-dashboard.js:382-385 | every ciphertext the backend stores is a non-empty whole number of 32-digit lower-case hex blocks |
| DoctorDashboard.LongCiphertextHidden | smart-healthcare-frontend/js/doctor-dashboard.js:382-396 | the ciphertext of a plaintext of 16 or more bytes is over 40 hex digits, so the edit form hides it |
| DoctorDashboard.BlocksLength | smart-healthcare-frontend/js/doctor-dashboard.js:384 | the hex length of a CBC ciphertext is at least 64 for 16 or more bytes and exactly 32 below that |
| DoctorDashboard.ShortCiphertextShown | smart-healthcare-frontend/js/doctor-dashboard.js:382-396 | the ciphertext of a plaintext under 16 bytes is 32 hex digits, not "encrypted-looking", and shown in the edit form as it is |
| DoctorDashboard.CorrectedHidesEveryCiphertext | smart-healthcare-frontend/js/doctor-dashboard.js:382-396 | with the corrected guard every stored ciphertext looks encrypted and the edit form shows it as empty |
| DoctorDashboard.Submit | smart-healthcare-frontend/js/doctor-dashboard.js:426-454 | the POST is sent iff the trimmed diagnosis and medicines are non-empty, to the selected appointment, with the trimmed fields and a follow-up date exactly when one was entered |
| DoctorDashboard.BlankFieldsRefused | smart-healthcare-frontend/js/doctor-dashboard.js:436-439 | a diagnosis of whitespace only is refused before any request |
| DoctorDashboard.SubmittedPassesServerCheck | smart-healthcare-frontend/js/doctor-dashboard.js:436-454 | every submitted payload passes the server's required-fields check, so the server saves it exactly when the appointment exists and its prescription is not revoked |
| DoctorDashboard.DoctorPage.constructor | smart-healthcare-frontend/js/doctor-dashboard.js:29-31 | the page starts with no appointments, the "all" filter, nothing selected and the form closed and empty |
| DoctorDashboard.DoctorPage.LoadDoctorAppointments | smart-healthcare-frontend/js/doctor-dashboard.js:279-316 | a successful non-empty reply stores the list, sets the statistics and displays it under the current filter; a refused or empty one shows "No appointments found" with zero statistics; an error shows the error line |
| DoctorDashboard.DoctorPage.FilterAppointments | smart-healthcare-frontend/js/doctor-dashboard.js:73-83 | the filter is remembered and the stored list is displayed under it |
| DoctorDashboard.DoctorPage.OpenNewPrescription | smart-healthcare-frontend/js/doctor-dashboard.js:319-352 | an unknown appointment or one of another day raises its alert and changes nothing; otherwise it is selected and the form opens with its patient and every input cleared |
| DoctorDashboard.DoctorPage.OpenEditPrescription | smart-healthcare-frontend/js/doctor-dashboard.js:354-419 | the id is selected first; a failed read alerts an error; the form opens exactly for an existing unrevoked prescription dated today, with the guarded fields; any alert leaves the form as it was |
| DoctorDashboard.EditRefusals | smart-healthcare-frontend/js/doctor-dashboard.js:365-380 | a revoked prescription or an appointment of another day never opens the edit form |
| DoctorDashboard.LiveEditIsUnrevoked | smart-healthcare-frontend/js/doctor-dashboard.js:178-200 | a card with a live Edit button belongs to a completed appointment whose prescription is not revoked |
| Dashboard.StatisticsBounds | smart-healthcare-frontend/js/dashboard.js:41-62 | prescriptions never exceed completed appointments, completed plus upcoming never exceed the total, and the badge is shown iff some appointment is booked |
| Dashboard.UncancelledAddUp | smart-healthcare-frontend/js/dashboard.js:42-44 | on a list without cancelled appointments, as the patient route returns, completed and upcoming add up to the total |
| Dashboard.EmptyStatistics | smart-healthcare-frontend/js/dashboard.js:144-152 | an empty or refused reply shows four zeros and hides the badge |
| Dashboard.RenderUpcoming | smart-healthcare-frontend/js/dashboard.js:174-226 | a card is drawn iff the appointment's doctor is present, and its Cancel button and date are the appointment's own |
| Dashboard.UpcomingExactlyBooked | smart-healthcare-frontend/js/dashboard.js:158-160 | the upcoming list holds exactly the booked appointments and keeps the reply's order |
| Dashboard.UpcomingCardsAreBooked | smart-healthcare-frontend/js/dashboard.js:158-239 | cards are shown iff some appointment is booked and every booked one has its doctor; then there is one card per booked appointment, in order, each cancelling its own appointment |
| Dashboard.Interpolated | smart-healthcare-frontend/js/dashboard.js:346-352 | a present field prints as itself |
| Dashboard.RenderRecent | smart-healthcare-frontend/js/dashboard.js:284-393 | a card is drawn iff the doctor and the prescription are present; it is the revoked notice iff the prescription is revoked, otherwise the fields with the advice or "-" and a download of its own appointment |
| Dashboard.RecentSelection | smart-healthcare-frontend/js/dashboard.js:265-282 | the recent list is the first three (or fewer) completed appointments with a prescription, in reply order |
| Dashboard.RecentCardsMatch | smart-healthcare-frontend/js/dashboard.js:282-393 | at most three cards, each the revoked notice iff its appointment's prescription is revoked, each download for its own appointment |
| Dashboard.RevokedRendersNoticeOnly | smart-healthcare-frontend/js/dashboard.js:297-324 | a prescription the patient route reports as revoked renders as the notice alone, with no fields and no download |
| Dashboard.LiveRendersPlaintext | smart-healthcare-frontend/js/dashboard.js:327-380 | a live prescription the route could decrypt shows the decrypted diagnosis and medicines and downloads its own appointment |
| Dashboard.PatientDashboard.constructor | smart-healthcare-frontend/js/dashboard.js:133-136 | both containers start at their loading line and no statistics are shown |
| Dashboard.PatientDashboard.LoadAppointments | smart-healthcare-frontend/js/dashboard.js:132-245 | an error shows the error line and keeps the statistics; a refused or empty reply zeroes them and shows "No appointments found"; otherwise the statistics cover every appointment and the container shows the upcoming cards |
| Dashboard.PatientDashboard.LoadPrescriptions | smart-healthcare-frontend/js/dashboard.js:248-399 | an error or refused reply shows the error line; otherwise "No prescriptions yet" or the recent cards |
| Dashboard.RenderUpcomingCards | smart-healthcare-frontend/js/dashboard.js:174-239 | the loop yields one card per appointment, in order, and stops with the error at the first doctor-less one |
| Dashboard.RenderRecentCards | smart-healthcare-frontend/js/dashboard.js:284-393 | the same for the recent prescriptions |
| Records.ToRecord | smart-healthcare-frontend/js/records.js:38-45 | a pushed record carries its kind, the item's id and date, the item itself and the kind's title |
| Records.LabReports | smart-healthcare-frontend/js/records.js:357-378 | the two mock reports carry the current name and are dated seven and thirty days before now |
| Records.RoleOf | smart-healthcare-frontend/js/records.js:29 | the stored role reads as patient, doctor or admin exactly for those three texts |
| Records.Collect | smart-healthcare-frontend/js/records.js:36-56 | one pass pushes at most one record per stored item |
| Records.CollectSnoc | smart-healthcare-frontend/js/records.js:36-56 | one more item adds its record exactly when the role may see it |
| Records.CollectMembership | smart-healthcare-frontend/js/records.js:36-102 | a pass pushes exactly the records of the items the role may see, and of nothing else |
| Records.PatientSeesOwn | smart-healthcare-frontend/js/records.js:37 | a patient sees exactly the items under their own name |
| Records.DoctorSeesAll | smart-healthcare-frontend/js/records.js:46 | a doctor sees every item, one record per item, in stored order |
| Records.AdminSeesReportsOnly | smart-healthcare-frontend/js/records.js:36-102 | an admin sees no prescription and no appointment, and every lab report |
| Records.PatientSeesMockReports | smart-healthcare-frontend/js/records.js:82-91 | a patient always sees both mock reports |
| Records.TypeFilter | smart-healthcare-frontend/js/records.js:184 | an absent or empty select means every type; "prescriptions", "appointments" and "reports" each pick their kind; any other value picks none |
| Records.PassMembership | smart-healthcare-frontend/js/records.js:197-225 | a guarded pass pushes a record exactly when the type filter admits its kind and its item is visible |
| Records.MergedMembership | smart-healthcare-frontend/js/records.js:194-225 | a record is merged exactly when its type passes the filter, its item is in the list of its kind, and the role may see it |
| Records.Insert | smart-healthcare-frontend/js/records.js:105 | inserting keeps every record and adds one |
| Records.InsertNewestFirst | smart-healthcare-frontend/js/records.js:105 | inserting into a newest-first list keeps it newest first |
| Records.SortNewestFirst | smart-healthcare-frontend/js/records.js:105 | the sort keeps exactly the same records, each as often |
| Records.SortIsOrderedPermutation | smart-healthcare-frontend/js/records.js:105 | the sorted list is newest first and a permutation of the merged list |
| Records.DateFiltered | smart-healthcare-frontend/js/records.js:228-233 | no date keeps every record; a date keeps exactly the records of that UTC day |
| Records.OnDayBounds | smart-healthcare-frontend/js/records.js:230-231 | a record is on a day iff its instant lies from that day's midnight up to the next midnight |
| Records.LoadRecords | smart-healthcare-frontend/js/records.js:20-113 | the page lists every kind merged for the role, newest first, or "No medical records found" when nothing is visible |
| Records.FilterRecords | smart-healthcare-frontend/js/records.js:183-239 | the page lists the admitted kinds for the role, on the chosen day, newest first, or "No records match your filters" |
| Records.MergeChosen | smart-healthcare-frontend/js/records.js:194-225 | the three guarded passes build exactly the merged list |
| Records.PushVisible | smart-healthcare-frontend/js/records.js:198-204 | one pass appends exactly the visible items' records to the list |
| Records.ListedRecords | smart-healthcare-frontend/js/records.js:183-239 | a listed page is newest first, and holds a record exactly when its type passes, its item is stored and visible, and it falls on the chosen day |
| Records.DisplayHour | smart-healthcare-frontend/js/records.js:406 | a non-negative hour shows as 1 to 12, and one that is not a number shows as 12 |
| Records.Clock | smart-healthcare-frontend/js/records.js:407 | the time reads the hour, a colon, the minutes and " AM" or " PM" |
| Records.SplitClock | smart-healthcare-frontend/js/records.js:403 | an `HH:MM` text splits into its hour and minutes |
| Records.FormatClock | smart-healthcare-frontend/js/records.js:402-408 | an `HH:MM` time shows its parsed hour on the twelve-hour clock and its minutes verbatim |
| Records.FormatHour | smart-healthcare-frontend/js/records.js:404-407 | a non-negative parsed hour shows as that hour modulo 12 with 0 as 12, and the suffix is PM exactly from 12 on |
| Records.FormatDigits | smart-healthcare-frontend/js/records.js:402-408 | a time whose hour is written in digits shows that number modulo 12 with 0 as 12, the minutes verbatim, and PM exactly from 12 on |
| Records.HourOnClock | smart-healthcare-frontend/js/records.js:406 | a non-negative hour lands on 1 to 12 and agrees with it modulo 12 |
| JsString.Split | smart-healthcare-frontend/js/records.js:403 | `split` on one character gives at least one piece, none of which holds the separator |
| JsString.SplitNoSeparator | smart-healthcare-frontend/js/records.js:403 | text without the separator splits into itself alone |
| JsString.SplitAtFirst | smart-healthcare-frontend/js/records.js:403 | text splits at its first separator into what precedes it and the split of the rest |
| JsString.LeadingSpace | smart-healthcare-frontend/js/doctor-dashboard.js:429-431 | what `trimStart` removes is exactly the leading whitespace: every character it counts is whitespace and the one after them is not |
| JsString.TrailingSpace | smart-healthcare-frontend/js/doctor-dashboard.js:429-431 | what `trimEnd` removes is exactly the trailing whitespace: every character it counts is whitespace and the one before them is not |
| JsString.TrimEmpty | smart-healthcare-frontend/js/doctor-dashboard.js:429-436 | a trimmed field is empty exactly when it holds only whitespace |
| JsString.DigitPrefix | smart-healthcare-frontend/js/records.js:404 | `parseInt` reads exactly the longest run of leading digits |
| JsString.ParseDigits | smart-healthcare-frontend/js/records.js:404 | `parseInt` of a non-empty run of decimal digits is the number it writes |
| JsString.DecimalString | smart-healthcare-frontend/js/doctor-dashboard.js:37-38 | `String(n)` of a non-negative number is a non-empty run of decimal digits |
| JsString.DecimalStringValue | smart-healthcare-frontend/js/doctor-dashboard.js:37-38 | the digits `String(n)` prints read back as `n` |
| JsString.DecimalStringLength | smart-healthcare-frontend/js/doctor-dashboard.js:37-38 | `String(n)` has `k + 1` digits when `10^k <= n < 10^(k+1)` |
| JsString.PadStart | smart-healthcare-frontend/js/doctor-dashboard.js:37-38 | `padStart` fills on the left up to the width, keeps the text as its suffix and never truncates |
| JsString.JsRem | smart-healthcare-frontend/js/records.js:406 | JavaScript's `%` keeps the sign of the dividend, stays below the divisor in magnitude, and differs from the dividend by a multiple of the divisor |

## Left out

- The AES, SHA-256, HMAC and Diffie-Hellman algorithms are not modelled. They are parameters of type `NodeCrypto.Library`, constrained only by `NodeCrypto.Sound`.
- The 2048-bit modular arithmetic of `createDiffieHellman` is not modelled. The key pair is a parameter, and `computeSecret`, which may refuse a peer key, is a field of the library.
- `generateDHKeys` throwing inside Node is not modelled; key generation is taken to succeed.
- WebCrypto ECDH P-256 and AES-GCM in `keyExchange.js` are browser foreign calls. `generateKey`, `importKey` and `exportKey` are inputs to `KeyExchangeClient.StartKeyExchange`.
- The browser's ECDH and the server's finite-field DH are incompatible, and the client's URLs differ from the server's routes. The end-to-end protocol is therefore not modelled, only each side.
- Concurrency is not modelled: every request runs alone against the process-wide `dhInstance` / `sharedSessionKey` slots, so the race between requests is not modelled.
- Mongoose query semantics are not modelled: strict mode, `strictPopulate`, schema casting of non-string JSON values, and the `lowercase` setter on the user's `email` (models/User.js:15). The `trim` setter on the user's `name` is modelled by `AuthRoutes.NewUser`. Collections keep insertion order. The `sort({ createdAt: -1 })` of the patient and doctor lists (appointmentRoutes.js:65, 125) is not modelled, so those lists are in store order.
- The read projections attach `isValid` and `isEditable` to the reply as the handlers intend. Whether Mongoose's strict mode would drop these unknown paths when serialising is not modelled.
- bcrypt, `jwt.sign` / `jwt.verify`, nodemailer and pdfkit are parameters or are reduced to the values they receive:
  - a hash comparison is a parameter;
  - the mail outcome is a parameter;
  - a PDF is the list of fields it would print.
- `Math.random` in OTP generation is a parameter. The OTP is `100000` plus an offset below 900000, so the floating-point computation is not modelled.
- JavaScript's distinction between `undefined` and `null` is not kept: both are `None`. Where text interpolation prints "undefined", the model writes that text out.
- Lone surrogates in strings are not modelled (Dafny's `char` is a Unicode scalar value), and neither are the newer base64 decoder options of Node.
- Date parsing and formatting are not modelled:
  - `new Date(...)` on an ISO string is its millisecond count;
  - a date input is a day number;
  - the `RangeError` of `toISOString` on an invalid date is not modelled;
  - `toLocaleString` / `toLocaleDateString` (`formatDateTime`, `formatDate`) are not modelled.
- The DOM is reduced to what it would show, and alerts, `localStorage` and `fetch` to their values.
- These parts of the interface are not modelled: hover styles, modals (`viewRecordDetails`, `viewPrescriptionDetails`), tabs and export, logout, profile editing and the quick-action stubs.
- The "Prescription not found" branches of the PDF routes, the read projections and the revoke route model `!appointment.prescription`. Mongoose materialises the nested path on every document, so no stored appointment reaches them. The store invariant `AppointmentRoutes.ValidAppointments` states this, and `AppointmentRoutes.StoredPrescriptionPresent` and `AdminRoutes.RevokeStored` prove the branches unreachable for stored ids.
- JsString.DigitsValue: `parseInt` is given its exact unbounded value. Above 2^53 JavaScript's result is a rounded double, and that rounding is not modelled.
- A dangling doctor reference in the PDF routes throws a TypeError at `appointment.doctor.name` after `doc.pipe(res)` (appointmentRoutes.js:268-270, 309-311). The model answers the clean 500 reply; in Node that reply races the PDF output already piped to the response, which is not modelled.
- Records.SortNewestFirst: `Array.prototype.sort` works in place. The model sorts a value by stable insertion, so in-place update and aliasing are not captured.
- Records.FormatHour: the contract covers hours that parse to a non-negative number. A negative parsed hour, as in "-3:00", makes JavaScript's `%` give a negative display hour; that case is only in the body (`Records.DisplayHour` through `JsString.JsRem`).
- Records.FormatTime: it has no contract of its own. Its meaning is stated by `Records.FormatClock`, `Records.FormatHour` and `Records.FormatDigits`.
- CryptoFacade.VerifySignature: it has no contract of its own. Its meaning is stated by `CryptoFacade.VerifySignatureExactly`.
- RandomIvCodec.VerifySignature: it has no contract of its own. Its meaning is stated by `RandomIvCodec.VerifySignatureExactly`.
- AdminDashboard.PrescriptionStats: `updatePrescriptionStats` has no contract of its own. Its meaning is stated by `AdminDashboard.StatsAddUp`, `AdminDashboard.BadgeShownIff`, `AdminDashboard.AlertsAreUnverifiedRows` and `AdminDashboard.StatusFiltersMatchStats`.
- DoctorDashboard.Statistics: `updateStatistics` of the doctor page has no contract of its own. Its meaning is stated by `DoctorDashboard.PatientCount` and `DoctorDashboard.StatisticsBounds`.
- Dashboard.Statistics: `updateStatistics` of the patient page has no contract of its own. Its meaning is stated by `Dashboard.StatisticsBounds`, `Dashboard.UncancelledAddUp` and `Dashboard.EmptyStatistics`.
- Dashboard.Upcoming: it has no contract of its own. Its meaning is stated by `Dashboard.UpcomingExactlyBooked` and `Dashboard.UpcomingCardsAreBooked`.
- Dashboard.Recent: it has no contract of its own. Its meaning is stated by `Dashboard.RecentSelection` and `Dashboard.RecentCardsMatch`.
- Records.Merged: it has no contract of its own. Its meaning is stated by `Records.MergedMembership`, `Records.MergeChosen` and `Records.ListedRecords`.
- `loadStats` (admin-dashboard.js:70-110) is not modelled. It copies the users-v2 and appointments-v2 totals into the cards, and its "today" counters read `appData.appointments`, which appointments-v2 never returns (it answers only `{ success, total }`), so those counters always show 0.
- `server.js` only wires the routes together, and its duplicate key-exchange endpoints call the modelled `crypto.js` functions.
- `doctorRoutes.js` depends on `utils/diseaseMap`, which is not part of this model.
- The unmounted `keyExchangeRoutes.js`, `backend/utils/keyExchange.js`, `cryptoClient.js`, `auth.js` and `appointment.js` are fetch and redirect plumbing, and are not modelled.
- The admin dashboard's edit request calls `/api/admin/prescription/edit/:id`, which has no backend route. Only the client-side guards are modelled.

## Findings

| source | as written | input that shows it | evidently intended | confidence | as-written member | corrected member |
|---|---|---|---|---|---|---|
| smart-healthcare-backend/routes/adminRoutes.js:36-43 | `Doctor.create` receives name, specialization, experience and hospital but no `email`, which the Doctor schema requires (models/Doctor.js:8-12) | an admin posts a complete form with name, specialization and email | the form's email is stored and the doctor is added | high, not executed | AdminRoutes.AddDoctorNeverAdds | AdminRoutes.AddDoctorCorrectedKeepsValid |
| smart-healthcare-backend/routes/appointmentRoutes.js:283-320 | the encoded-id PDF route renders the prescription without the revocation check of the plain route (appointmentRoutes.js:246-251) | a prescription is written for a patient with an ASCII name, then revoked; request the PDF under the Base64 of its id | both PDF routes answer 403 for a revoked prescription | high, not executed | AppointmentRoutes.EncodedPdfIgnoresRevocation | AppointmentRoutes.CheckedPdfRoutesAgree |
| smart-healthcare-frontend/js/admin-dashboard.js:286-290 | the "to" date keeps rows created no later than that day's UTC midnight, so it drops nearly all of its own day | a row created at 00:00:00.001 UTC on day 0, with "to" set to day 0 | "to" is inclusive of the whole day, like "from" | high, not executed | AdminDashboard.DateToDropsItsOwnDay | AdminDashboard.CorrectedDatesInclusive |
| smart-healthcare-frontend/js/doctor-dashboard.js:382-385 | `looksEncrypted` needs more than 40 hex digits, but the ciphertext of any text under 16 UTF-8 bytes is exactly 32 hex digits | an advice such as "rest" that the doctor's read could not decrypt reaches the edit form as its 32-digit ciphertext | every stored ciphertext is recognised and blanked | medium, not executed | DoctorDashboard.ShortCiphertextShown | DoctorDashboard.CorrectedHidesEveryCiphertext |
