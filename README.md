# HealthSphere appointment core, modelled in Dafny

This project models the booking core of the HealthSphere hospital-appointment platform:

- the **appointment ledger**: the slot-availability check over nine fixed daily times, booking a `pending` appointment after the hospital, specialization and slot checks, the hospital's approve/reject decision, and the patient's status lookup;
- the **hospital catalog**: registering a hospital, logging in, adding a doctor (which extends the hospital's specialization list and roster), and the catalog queries patients browse;
- the **authentication middleware** decision: bearer-token extraction, verification, account lookup per role, and matching the URL id against the token id;
- two front-end decision machines: the five-step **booking wizard** and its Back control, and the **route guard** that picks a user type from the path.

Modules follow the source files:

| module | file | models |
|---|---|---|
| `Common` | common.dfy | `Option`, `Response`, duplicate-free lists, first-match lookup |
| `Text` | text.dfy | the JavaScript string operations the core uses: `trim`, ASCII lower-casing, `includes`, `replace` |
| `Schemas` | schemas.dfy | backend/models/appointment.js, plus the shapes of the hospital, doctor and patient records |
| `AppointmentController` | appointment_controller.dfy | backend/controllers/appointmentController.js |
| `HospitalController` | hospital_controller.dfy | backend/controllers/hospitalController.js |
| `AuthMiddleware` | auth_middleware.dfy | backend/middleware/authMiddleware.js |
| `AppointmentBookingPage` | booking_page.dfy | frontend/src/pages/AppointmentBooking/AppointmentBookingPage.tsx |
| `ProtectedRoute` | protected_route.dfy | frontend/src/components/ProtectedRoute.tsx |

The store's tables are sequences of records. The appointment ledger and the hospital/doctor directory are classes whose methods reassign those sequences. Each method states the whole new state and keeps a stated invariant. Queries are functions over the sequences. Ids, dates and times are opaque strings compared for equality. The id the store assigns to a new document and the current time are method parameters. The password hash, the hash comparison and token verification are function parameters.

Three behaviours of the code that a reader might not expect, modelled as written:

- **Status changes are not final.** updateAppointmentStatus never reads the previous status (backend/controllers/appointmentController.js:147-162), so `UpdateAppointmentStatus` accepts approved → rejected and rejected → approved. `ReapprovalCanDoubleBook` shows the consequence. Re-approving a rejected appointment can put two active appointments on one slot, because the freed slot may have been booked again in the meantime. For this reason "no double booking" is kept by every booking (`BookAppointment`), but it is not an invariant of the ledger.
- **The `patient` path is missing.** The appointment schema has no `patient` path, yet the booking handler writes one and the status lookup filters on it. The model keeps `patient` as a field, as the controller uses it. The booking route `/patients/book` has no `:patientId` parameter (backend/routes/patientRoutes.js:28), so a booking made through it stores no patient. `UnlinkedRecordNeverFound` proves that such a record is never found by the patient's status lookup.
- **Booking checks only the hospital, the specialization and the slot.** It checks neither a doctor nor the caller, and the booking route has no authentication middleware (backend/routes/patientRoutes.js:28). The model does the same.

## Model

| member | source | states |
|---|---|---|
| `Common.Distinct` | backend/controllers/appointmentController.js:10 | `[...new Set(xs)]`: the result has no duplicates and holds exactly the elements of the input |
| `Common.DistinctOfNoDups` | backend/controllers/appointmentController.js:10 | on a duplicate-free list the Set round trip returns the list itself, in order |
| `Common.FindFirst` | backend/controllers/appointmentController.js:151-154 | `findById`/`findOne`: returns the first matching position, and nothing only when no record matches |
| `Text.TrimStart` | backend/models/appointment.js:8 | strips exactly the leading whitespace; what remains starts with a non-whitespace character |
| `Text.TrimEnd` | backend/models/appointment.js:8 | strips exactly the trailing whitespace; what remains ends with a non-whitespace character |
| `Text.Trim` | backend/models/appointment.js:8 | the stored name is a slice of the input with no whitespace at either end, and everything cut away is whitespace |
| `Text.TrimOfTrimmed` | backend/models/appointment.js:8 | a string with no whitespace at either end is its own trim |
| `Text.TrimIdempotent` | backend/models/appointment.js:8 | trimming a stored name again changes nothing |
| `Text.Lower` | backend/models/hospital.js:15 | each upper-case ASCII letter becomes its lower-case letter and every other character is kept, so no upper-case ASCII letter remains |
| `Text.LowerIdempotent` | backend/models/hospital.js:15 | a stored (lower-cased) e-mail is its own lower-case form, so stored and queried e-mails compare alike |
| `Text.IndexFrom` | backend/middleware/authMiddleware.js:10 | finds the first occurrence of the pattern at or after a position, or reports that there is none |
| `Text.IndexOf` | backend/middleware/authMiddleware.js:10 | the first occurrence of the pattern; none exactly when it occurs nowhere |
| `Text.ContainsIff` | frontend/src/components/ProtectedRoute.tsx:10-11 | `includes` holds exactly when the pattern occurs at some position |
| `Text.ReplaceFirst` | backend/middleware/authMiddleware.js:10 | `replace` with a string pattern (and a replacement without `$`) replaces only the first occurrence; without one the string is unchanged |
| `Text.ReplacePrefix` | backend/middleware/authMiddleware.js:10 | when the header starts with the pattern, replacing it by nothing strips exactly that prefix |
| `Schemas.ParseStatus` | backend/models/appointment.js:31-35 | a status is accepted exactly when it is one of `pending`, `approved`, `rejected`, and reads back as that label |
| `Schemas.StatusLabelRoundTrip` | backend/models/appointment.js:31-35 | every status survives being written and read back, and distinct statuses have distinct labels |
| `Schemas.NewAppointment` | backend/models/appointment.js:4-40 | a new document exists exactly when the required paths are non-empty and the status is in the enumeration; it then conforms to the schema, with a trimmed name, status `pending` when unspecified, and `createdAt` the current time |
| `Schemas.FindHospital` | backend/controllers/appointmentController.js:86-89 | `Hospital.findById`: a found hospital has that id; none is found exactly when no hospital has it |
| `AppointmentController.FlatSpecializations` | backend/controllers/appointmentController.js:10 | `flatMap`: a label occurs exactly when some hospital offers it |
| `AppointmentController.AllSpecializations` | backend/controllers/appointmentController.js:7-15 | every label offered by some hospital, each once, and no other label |
| `AppointmentController.HospitalsBySpecialization` | backend/controllers/appointmentController.js:18-26 | exactly the summaries of the hospitals whose list contains the label, each once when hospital ids are unique |
| `AppointmentController.AllHospitals` | backend/controllers/appointmentController.js:29-36 | one id/name summary per hospital, in table order |
| `AppointmentController.SpecializationsByHospital` | backend/controllers/appointmentController.js:39-50 | 404 exactly when no hospital has the id, otherwise that hospital's list as stored |
| `AppointmentController.BookedTimes` | backend/controllers/appointmentController.js:56-67 | a time is listed exactly when a pending or approved appointment holds it at that hospital on that date |
| `AppointmentController.Without` | backend/controllers/appointmentController.js:68 | the slots not booked, in the order of the slots, duplicate-free when the slots are |
| `AppointmentController.AvailableSlots` | backend/controllers/appointmentController.js:53-74 | a time is offered exactly when it is one of the nine and no pending or approved appointment holds it there that day; the result keeps the fixed order, has no duplicates and at most nine items |
| `AppointmentController.SubseqElements` | backend/controllers/appointmentController.js:68 | an ordered selection of a list holds only elements of that list |
| `AppointmentController.SubseqReflexive` | backend/controllers/appointmentController.js:62-68 | the nine slots are an ordered selection of themselves |
| `AppointmentController.SubseqDetermined` | backend/controllers/appointmentController.js:62-68 | an ordered selection of the duplicate-free slot list is fixed by which slots it keeps, so the available list is exactly the nine in order minus the held ones |
| `AppointmentController.AvailabilityDeterminedByHeldTimes` | backend/controllers/appointmentController.js:56-68 | two ledgers that hold the same times at a hospital on a date offer the same slots there |
| `AppointmentController.NoneHeldGivesAllSlots` | backend/controllers/appointmentController.js:62-68 | with no pending or approved appointment there that day, all nine labels are offered in order |
| `AppointmentController.NonHoldingAppointmentBlocksNothing` | backend/controllers/appointmentController.js:56-60 | a rejected appointment, or one at another hospital or on another date, changes no availability |
| `AppointmentController.IndexOfAppointment` | backend/controllers/appointmentController.js:151-154 | the found position holds that id; nothing is found exactly when no record has it |
| `AppointmentController.AppendKeepsLedgerInvariant` | backend/controllers/appointmentController.js:109-120 | saving a conforming record under a new id keeps ids unique and every record conforming |
| `AppointmentController.AppendFreeSlotKeepsNoDoubleBooking` | backend/controllers/appointmentController.js:97-106 | adding a record whose slot no active record holds keeps any two active records on different slots |
| `AppointmentController.BookedTimeNoLongerAvailable` | backend/controllers/appointmentController.js:109-120 | after a booking, its time is no longer offered for that hospital and date |
| `AppointmentController.ActiveRecordBlocksItsTime` | backend/controllers/appointmentController.js:56-60 | a pending or approved record's time is not offered at its hospital on its date |
| `AppointmentController.RejectingSoleHolderReleasesSlot` | backend/controllers/appointmentController.js:56-60 | rejecting the only record holding a time makes that time available again |
| `AppointmentController.DecisionKeepsNoDoubleBooking` | backend/controllers/appointmentController.js:147-162 | rejecting, or deciding a record that already held its slot, keeps the ledger free of double bookings |
| `AppointmentController.ReapprovalCanDoubleBook` | backend/controllers/appointmentController.js:147-162 | a ledger free of double bookings gets one when a rejected record is approved again |
| `AppointmentController.AppointmentLedger.BookAppointment` | backend/controllers/appointmentController.js:86-121 | checks in order (unknown hospital 404, specialization not offered 400, slot held 400 "Time slot already booked", invalid document 500), each leaving the ledger unchanged; succeeds exactly when all four checks pass, and then appends exactly one pending record carrying the request's fields and keeps old records and the no-double-booking property |
| `AppointmentController.AppointmentLedger.UpdateAppointmentStatus` | backend/controllers/appointmentController.js:147-164 | a status other than approved/rejected is 400 before any lookup, an unknown id 404, another hospital's record 403, all unchanged; otherwise only that record's status changes, whatever it was before |
| `AppointmentController.AppointmentStatus` | backend/controllers/appointmentController.js:176-198 | with ids unique: 404 with its message exactly when no record has this id and this patient; success exactly when such a record's hospital exists, giving that record joined with its hospital; 500 only when the hospital reference dangles |
| `AppointmentController.UnlinkedRecordNeverFound` | backend/controllers/appointmentController.js:176-183 | with ids unique, a record stored without a patient is never found by the status lookup |
| `AppointmentController.PendingAppointments` | backend/controllers/appointmentController.js:132 | exactly this hospital's pending records, in ledger order |
| `HospitalController.AddSpecialization` | backend/controllers/hospitalController.js:92-94 | the label is afterwards in the list, the old list is kept as a prefix, nothing else is added, and a duplicate-free list stays duplicate-free |
| `HospitalController.AddSpecializationIdempotent` | backend/controllers/hospitalController.js:92-94 | adding the same specialization twice is adding it once |
| `HospitalController.WithDoctor` | backend/controllers/hospitalController.js:92-95 | the hospital after adding a doctor: specialization added if absent, one roster entry appended, identity fields unchanged |
| `HospitalController.LoginHospital` | backend/controllers/hospitalController.js:35-44 | an unknown e-mail and a wrong password give the identical 400 "Invalid credentials"; success exactly when a hospital with that e-mail matches the password |
| `HospitalController.GetSpecializations` | backend/controllers/hospitalController.js:116-124 | 404 exactly when the id is unknown, otherwise the stored name and list unchanged |
| `HospitalController.GetDoctors` | backend/controllers/hospitalController.js:133-141 | 404 exactly when the id is unknown, otherwise the stored name and roster unchanged |
| `HospitalController.GrowingListsKeepsDoctorsCovered` | backend/controllers/hospitalController.js:92-95 | growing one hospital's specialization list keeps every doctor's specialization offered by its hospital |
| `HospitalController.AddDoctorKeepsInvariant` | backend/controllers/hospitalController.js:82-95 | adding a doctor with a new e-mail keeps ids and e-mails unique, lists duplicate-free, and doctors covered |
| `HospitalController.RegisterKeepsInvariant` | backend/controllers/hospitalController.js:17-23 | registering a hospital with a new e-mail keeps the tables' invariant |
| `HospitalController.HospitalDirectory.RegisterHospital` | backend/controllers/hospitalController.js:12-24 | an e-mail already registered gives 400 and adds nothing; otherwise exactly one hospital with a trimmed name and lower-cased e-mail is appended (500 and nothing added on a failing document) |
| `HospitalController.HospitalDirectory.AddDoctor` | backend/controllers/hospitalController.js:72-107 | unknown hospital 404, doctor e-mail taken 400, a failing doctor document 500, all changing nothing; otherwise one doctor pointing at the hospital is appended, the specialization is in the hospital's list, one roster entry is appended, and no other hospital changes |
| `AuthMiddleware.BearerToken` | backend/middleware/authMiddleware.js:10-13 | a missing header or an empty result gives no token; a token is the header with the first "Bearer " removed |
| `AuthMiddleware.StandardBearerHeader` | backend/middleware/authMiddleware.js:10 | a header "Bearer " + credentials yields exactly the credentials |
| `AuthMiddleware.LooseBearerParsing` | backend/middleware/authMiddleware.js:10 | a header without the scheme is taken whole; a header that is only the scheme gives no token |
| `AuthMiddleware.Decoded` | backend/middleware/authMiddleware.js:16 | a present token yields exactly what verification returns for it; claims exist only for a present token that verifies |
| `AuthMiddleware.RoleDecision` | backend/middleware/authMiddleware.js:20-46 | patient/hospital: 401 with the role's not-found message exactly when the account is absent, 403 only on a present, differing id parameter; doctor: 401 exactly when absent; other roles 400; proceeding carries the account with the token's id |
| `AuthMiddleware.Authorize` | backend/middleware/authMiddleware.js:10-52 | no token 401, failed verification 401, otherwise the role decision on the decoded claims |
| `AuthMiddleware.ProceedImpliesAuthenticated` | backend/middleware/authMiddleware.js:20-49 | `next` is reached only with an existing account of the route's role whose id is the token's and whose id check passed |
| `AuthMiddleware.DoctorRoleIgnoresParams` | backend/middleware/authMiddleware.js:39-43 | for the doctor role the URL parameters play no part |
| `AuthMiddleware.Request.Authenticate` | backend/middleware/authMiddleware.js:8-53 | returns the decision; sets `user` as soon as the token verifies, even on a later rejection; sets `userModel` only when proceeding |
| `ProtectedRoute.UserTypeOf` | frontend/src/components/ProtectedRoute.tsx:9-11 | doctor exactly when "doctor" occurs in the path; hospital when "hospital" occurs and "doctor" does not; patient otherwise |
| `ProtectedRoute.DoctorWinsOverHospital` | frontend/src/components/ProtectedRoute.tsx:10-11 | a path containing both words is a doctor's |
| `ProtectedRoute.KeysAndLoginPagesDistinct` | frontend/src/components/ProtectedRoute.tsx:14-18 | each user type has its own token key and its own login page |
| `ProtectedRoute.Guard` | frontend/src/components/ProtectedRoute.tsx:14-21 | renders the children exactly when a non-empty token is stored under the type's key + "Token"; otherwise redirects to "/login/" + type |
| `ProtectedRoute.GuardReadsOnlyItsKey` | frontend/src/components/ProtectedRoute.tsx:14 | only the entry under the path's own key affects the outcome |
| `AppointmentBookingPage.ChooseSpecialtyOnLanding` | frontend/src/pages/AppointmentBooking/AppointmentBookingPage.tsx:166-170 | from landing, a specialty starts the specialty-first path on its middle step |
| `AppointmentBookingPage.ChooseHospitalOnLanding` | frontend/src/pages/AppointmentBooking/AppointmentBookingPage.tsx:178-182 | from landing, a hospital starts the hospital-first path on its middle step |
| `AppointmentBookingPage.ChooseHospitalForSpecialty` | frontend/src/pages/AppointmentBooking/AppointmentBookingPage.tsx:196-199 | a hospital chosen for the specialty moves to the doctors, keeping the path |
| `AppointmentBookingPage.ChooseSpecialtyAtHospital` | frontend/src/pages/AppointmentBooking/AppointmentBookingPage.tsx:211-214 | a specialty chosen at the hospital moves to the doctors, keeping the path |
| `AppointmentBookingPage.ChooseDoctor` | frontend/src/pages/AppointmentBooking/AppointmentBookingPage.tsx:223-226 | a doctor moves to the booking form |
| `AppointmentBookingPage.SubmitBooking` | frontend/src/pages/AppointmentBooking/AppointmentBookingPage.tsx:236 | submitting sets the submitted flag on the booking form and keeps every choice and the path |
| `AppointmentBookingPage.GoBack` | frontend/src/pages/AppointmentBooking/AppointmentBookingPage.tsx:63-81 | on landing nothing changes; from any other step Back moves to a different step, never to the booking form |
| `AppointmentBookingPage.TransitionsKeepConsistent` | frontend/src/pages/AppointmentBooking/AppointmentBookingPage.tsx:63-81 | every move keeps the remembered path in step: none on landing, the matching path on each middle step |
| `AppointmentBookingPage.GoBackFromDoctorsFollowsPath` | frontend/src/pages/AppointmentBooking/AppointmentBookingPage.tsx:72-75 | Back from the doctors goes to the middle step of the remembered path and clears the doctor, keeping specialty, hospital, path and the flag |
| `AppointmentBookingPage.GoBackClearsWhatItLeaves` | frontend/src/pages/AppointmentBooking/AppointmentBookingPage.tsx:65-79 | Back from a middle step returns to landing with specialty, hospital and path cleared; Back from the form returns to the doctors with the flag cleared |
| `AppointmentBookingPage.RoundTripThroughDoctors` | frontend/src/pages/AppointmentBooking/AppointmentBookingPage.tsx:73 | landing, either path, the doctors, then Back lands on the middle step that was taken |
| `AppointmentBookingPage.BackTwiceFromDoctorsIsLanding` | frontend/src/pages/AppointmentBooking/AppointmentBookingPage.tsx:65-75 | Back twice from the doctors is the landing step with every choice cleared |
| `AppointmentBookingPage.BookingPage.constructor` | frontend/src/pages/AppointmentBooking/AppointmentBookingPage.tsx:21-28 | the page starts on landing with nothing chosen and no path |
| `AppointmentBookingPage.BookingPage.OnSelectSpecialtyFromLanding` | frontend/src/pages/AppointmentBooking/AppointmentBookingPage.tsx:166-170 | the setters leave the fields in the state the transition defines |
| `AppointmentBookingPage.BookingPage.OnSelectHospitalFromLanding` | frontend/src/pages/AppointmentBooking/AppointmentBookingPage.tsx:178-182 | the setters leave the fields in the state the transition defines |
| `AppointmentBookingPage.BookingPage.OnSelectHospitalForSpecialty` | frontend/src/pages/AppointmentBooking/AppointmentBookingPage.tsx:196-199 | the setters leave the fields in the state the transition defines |
| `AppointmentBookingPage.BookingPage.OnSelectSpecialtyAtHospital` | frontend/src/pages/AppointmentBooking/AppointmentBookingPage.tsx:211-214 | the setters leave the fields in the state the transition defines |
| `AppointmentBookingPage.BookingPage.OnSelectDoctor` | frontend/src/pages/AppointmentBooking/AppointmentBookingPage.tsx:223-226 | the setters leave the fields in the state the transition defines |
| `AppointmentBookingPage.BookingPage.OnBookingSubmit` | frontend/src/pages/AppointmentBooking/AppointmentBookingPage.tsx:236 | the submitted flag is set, nothing else changes |
| `AppointmentBookingPage.BookingPage.GoBackStep` | frontend/src/pages/AppointmentBooking/AppointmentBookingPage.tsx:63-81 | the setters in `goBack` leave the fields in the state `GoBack` defines and keep path and step consistent |
| `AppointmentBookingPage.BookingPage.BackVisible` | frontend/src/pages/AppointmentBooking/AppointmentBookingPage.tsx:124 | the Back control is shown exactly off the landing step |

## Left out

- Storage and server plumbing: the MongoDB connection, Express setup and route registration (backend/index.js, backend/routes/*.js) are I/O and wiring. Two route facts are used as context only. The booking route has no auth middleware and no `:patientId`. The status route runs the hospital middleware, whose token id is the `callerId` of `UpdateAppointmentStatus`.
- Password hashing and token signing/verification are library calls. Hashing is a `hash` parameter. Comparison is a `matches` parameter. `jwt.verify` is a partial `verify` parameter. Signing, and the token returned by login, are not modelled.
- The patient and doctor controllers (registration and login) are not part of this model. Their only logic, a duplicate-e-mail check, has the same shape as `RegisterHospital`.
- `populate` joins are not modelled, except the hospital join of the status lookup, where a dangling reference ends in 500. `new Date(...)` parsing and cast errors on malformed ids or dates are not modelled either. Database failures behind the 500 catch-all handlers are left out.
- The race between the availability check and the booking write is a concurrency issue. Operations are modelled as sequential.
- Absent request-body fields are represented as empty strings. A document that fails `required` validation gives the 500 of the catch-all handler.
- The `unique` option on the hospital specialization elements is a database index across documents. It is not modelled. The model instead proves that the code's own `includes` check keeps each list duplicate-free.
- AddDoctor: the doctor document and the hospital document are saved in two steps. A failure of the second save after the first succeeded is not modelled.
- Text.Lower: only ASCII letters are lower-cased. Mongoose's `lowercase` uses JavaScript's full Unicode case mapping.
- The booking wizard's effects are not modelled: decoding the patient id from the stored token, fetching a hospital's specialties, and all rendering. Each selection handler requires the step on which its list is rendered, because the handler exists only on that step.
- The mongoose schema has no `patient` path. Under its default strict mode the store would drop the field on save. The model keeps the field as the controller writes it.
