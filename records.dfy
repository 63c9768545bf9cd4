/**
 * The records the component keeps in its state, its hard-coded data, and
 * the pure helpers that build or look up records: `generateCode`,
 * `generateQR`, the credential lookup of the login form, the doctor search
 * filter and the lookup of a prescription by its code.
 */
module Records {
  import opened Wrappers
  import Seqs
  import Text
  import Uri

  datatype UserType = Patient | Doctor

  datatype HistoryEntry = HistoryEntry(date: string, doctor: string, diagnosis: string, treatment: string, notes: string)

  /**
   * A user profile. Patient profiles have no specialty or license and doctor
   * profiles no birth date, blood type, allergies, surgeries or history; a
   * field the object lacks is the empty string or the empty list here.
   */
  datatype Profile = Profile(
    fullName: string, phone: string, email: string,
    birthDate: string, bloodType: string,
    allergies: seq<string>, surgeries: seq<string>, medicalHistory: seq<HistoryEntry>,
    specialty: string, license: string)

  /** The `{}` that `editedProfile` starts as. */
  const EmptyProfile := Profile("", "", "", "", "", [], [], [], "", "")

  datatype Account = Account(id: string, email: string, password: string, kind: UserType, profile: Profile)

  /** `USERS.patients`. */
  const Patients: seq<Account> := [
    Account("p1", "paciente@test.com", "123456", Patient,
      Profile("Juan Carlos Pérez López", "667-123-4567", "paciente@test.com", "1990-03-15", "O+",
        ["Penicilina", "Polen"], ["Apendicectomía (2015)"],
        [ HistoryEntry("2025-11-20", "Dra. María González", "Hipertensión arterial", "Losartán 50mg", "Control en 3 meses"),
          HistoryEntry("2025-08-15", "Dr. Carlos Ramírez", "Gastritis aguda", "Omeprazol 20mg", "Dieta blanda") ],
        "", ""))
  ]

  /** `USERS.doctors`. */
  const Doctors: seq<Account> := [
    Account("d1", "doctor@test.com", "123456", Doctor,
      Profile("Dra. María González Hernández", "667-987-6543", "doctor@test.com", "", "", [], [], [],
        "Cardiología", "12345678"))
  ]

  /** An entry of the searchable doctor catalogue (photo, rating, reviews and experience are display data). */
  datatype Listing = Listing(id: nat, name: string, specialty: string, symptoms: seq<string>)

  /** `SAMPLE_DOCTORS`. */
  const SampleDoctors: seq<Listing> := [
    Listing(1, "Dra. María González", "Cardiología", ["dolor de pecho", "hipertensión"]),
    Listing(2, "Dr. Carlos Ramírez", "Medicina General", ["fiebre", "tos", "gripe"])
  ]

  /** An appointment; the doctor's own agenda entries carry no doctor name (empty here). */
  datatype Appointment = Appointment(id: int, patientName: string, doctorName: string, date: string, time: string, kind: string)

  /** The initial `doctorAppointments`. */
  const SampleAgenda: seq<Appointment> := [
    Appointment(1, "Juan Pérez", "", "2026-01-15", "10:00", "Consulta"),
    Appointment(2, "María López", "", "2026-01-18", "11:00", "Seguimiento"),
    Appointment(3, "Carlos García", "", "2026-01-22", "14:00", "Primera vez")
  ]

  datatype Medication = Medication(name: string, dosage: string, frequency: string, duration: string)

  /** The four inputs of a medication row, the `field` argument of `updateMed`. */
  datatype MedField = Name | Dosage | Frequency | Duration

  const BlankMedication := Medication("", "", "", "")

  function GetField(m: Medication, f: MedField): string {
    match f
    case Name => m.name
    case Dosage => m.dosage
    case Frequency => m.frequency
    case Duration => m.duration
  }

  /** `m[field] = value`: the named field takes the value and the other three keep theirs. */
  function SetField(m: Medication, f: MedField, value: string): (r: Medication)
    ensures GetField(r, f) == value
    ensures forall g :: g != f ==> GetField(r, g) == GetField(m, g)
  {
    match f
    case Name => m.(name := value)
    case Dosage => m.(dosage := value)
    case Frequency => m.(frequency := value)
    case Duration => m.(duration := value)
  }

  /** The prescription form, `newPrescription`. */
  datatype PrescriptionForm = PrescriptionForm(patientName: string, diagnosis: string, medications: seq<Medication>, instructions: string)

  /** The form as it starts and as it is reset: empty fields and one blank medication. */
  const EmptyForm := PrescriptionForm("", "", [BlankMedication], "")

  datatype Prescription = Prescription(
    patientName: string, diagnosis: string, medications: seq<Medication>, instructions: string,
    code: string, qrUrl: string, doctorName: string, date: string)

  /** A character of `Math.random().toString(36)` after `toUpperCase()`. */
  predicate IsBase36Upper(c: char) {
    '0' <= c <= '9' || 'A' <= c <= 'Z'
  }

  /** What `Math.random().toString(36).substring(2, 8).toUpperCase()` can produce. */
  predicate IsRandomSuffix(s: string) {
    |s| <= 6 && forall i :: 0 <= i < |s| ==> IsBase36Upper(s[i])
  }

  /**
   * `generateCode()` with the clock reading `now` (`Date.now()`) and the
   * random suffix passed in: `RX-<now>-<suffix>`.
   */
  function GenerateCode(now: nat, suffix: string): (code: string)
    ensures |code| > 3 && code[..3] == "RX-"
    ensures IsRandomSuffix(suffix) ==> forall i :: 0 <= i < |code| ==> Uri.Unreserved(code[i])
    ensures IsRandomSuffix(suffix) ==> Uri.IsAscii(code)
  {
    "RX-" + Text.Decimal(now) + "-" + suffix
  }

  /**
   * A code determines the clock reading and the suffix it was made from:
   * two codes can only coincide when both the millisecond and the random
   * suffix coincide.
   */
  lemma GenerateCodeInjective(now1: nat, suffix1: string, now2: nat, suffix2: string)
    requires GenerateCode(now1, suffix1) == GenerateCode(now2, suffix2)
    ensures now1 == now2 && suffix1 == suffix2
  {
    var d1, d2 := Text.Decimal(now1), Text.Decimal(now2);
    var t1, t2 := d1 + "-" + suffix1, d2 + "-" + suffix2;
    assert GenerateCode(now1, suffix1)[3..] == t1;
    assert GenerateCode(now2, suffix2)[3..] == t2;
    assert t1 == t2;
    Text.DigitRunStopsAt(d1, '-', suffix1);
    Text.DigitRunStopsAt(d2, '-', suffix2);
    assert d1 == t1[..|d1|] == t2[..|d2|] == d2;
    Text.DecimalInjective(now1, now2);
    assert suffix1 == t1[|d1| + 1..] == t2[|d2| + 1..] == suffix2;
  }

  /** The QR image service address before the encoded text. */
  const QrPrefix := "https://api.qrserver.com/v1/create-qr-code/?size=200x200&data="

  /**
   * `generateQR(text)`: the image service address with the percent-encoded
   * text as its `data` parameter, which decodes back to exactly the text.
   */
  function GenerateQR(text: string): (url: string)
    requires Uri.IsAscii(text)
    ensures |url| >= |QrPrefix| && url[..|QrPrefix|] == QrPrefix
    ensures Uri.DecodeURIComponent(url[|QrPrefix|..]) == text
  {
    Uri.EncodeDecodeRoundTrip(text);
    var url := QrPrefix + Uri.EncodeURIComponent(text);
    assert url[|QrPrefix|..] == Uri.EncodeURIComponent(text);
    url
  }

  /** A generated code needs no escaping: its QR address is the prefix followed by the code itself. */
  lemma GeneratedCodeQR(now: nat, suffix: string)
    requires IsRandomSuffix(suffix)
    ensures GenerateQR(GenerateCode(now, suffix)) == QrPrefix + GenerateCode(now, suffix)
  {
  }

  /** The accounts `handleLogin` searches: `[...USERS.patients, ...USERS.doctors]`. */
  const Accounts := Patients + Doctors

  predicate HasCredentials(a: Account, email: string, password: string) {
    a.email == email && a.password == password
  }

  /**
   * The `find` of `handleLogin` over a directory of accounts (patients
   * before doctors in the component): the first account whose email and
   * password both equal the ones typed; None when no account matches.
   */
  function Authenticate(accounts: seq<Account>, email: string, password: string): (r: Option<Account>)
    ensures r.None? <==> forall a :: a in accounts ==> !HasCredentials(a, email, password)
    ensures r.Some? ==> exists i :: 0 <= i < |accounts| && accounts[i] == r.value
                                    && HasCredentials(accounts[i], email, password)
                                    && forall j :: 0 <= j < i ==> !HasCredentials(accounts[j], email, password)
  {
    Seqs.Find(accounts, a => HasCredentials(a, email, password))
  }

  /** The two demo accounts log in with their own passwords, and a wrong password is refused. */
  lemma DemoLogins()
    ensures Authenticate(Accounts, "paciente@test.com", "123456") == Some(Patients[0])
    ensures Authenticate(Accounts, "doctor@test.com", "123456") == Some(Doctors[0])
    ensures Authenticate(Accounts, "doctor@test.com", "654321") == None
  {
    Seqs.FindIsFirst(Accounts, a => HasCredentials(a, "paciente@test.com", "123456"), 0);
    Seqs.FindIsFirst(Accounts, a => HasCredentials(a, "doctor@test.com", "123456"), 1);
  }

  /** The fields the search looks in: `[d.name, d.specialty, ...d.symptoms]`. */
  function SearchFields(d: Listing): seq<string> {
    [d.name, d.specialty] + d.symptoms
  }

  /** Some field, lower-cased, contains the lower-cased search term. */
  function MatchesSearch(d: Listing, term: string): (m: bool)
    ensures term == "" ==> m
  {
    assert Text.ToLowerCase(term) == "" ==> Text.Includes(Text.ToLowerCase(SearchFields(d)[0]), Text.ToLowerCase(term)) by {
      Text.IncludesEmpty(Text.ToLowerCase(SearchFields(d)[0]));
    }
    var fields := SearchFields(d);
    exists i :: 0 <= i < |fields| && Text.Includes(Text.ToLowerCase(fields[i]), Text.ToLowerCase(term))
  }

  /**
   * `filteredDoctors`: the listings some of whose fields contain the search
   * term regardless of letter case, in catalogue order.
   */
  function FilterDoctors(catalogue: seq<Listing>, term: string): (r: seq<Listing>)
    ensures forall d :: d in r <==> d in catalogue && MatchesSearch(d, term)
    ensures forall d :: multiset(r)[d] == if MatchesSearch(d, term) then multiset(catalogue)[d] else 0
    ensures Seqs.IsSubsequence(r, catalogue)
  {
    Seqs.Filter(catalogue, d => MatchesSearch(d, term))
  }

  /** An empty search term lists the whole catalogue. */
  lemma EmptySearchListsAll(catalogue: seq<Listing>)
    ensures FilterDoctors(catalogue, "") == catalogue
  {
    Seqs.FilterKeepsAll(catalogue, d => MatchesSearch(d, ""));
  }

  /** Typing the term in capitals or in lower case lists the same doctors. */
  lemma SearchIgnoresCase(catalogue: seq<Listing>, term: string)
    ensures FilterDoctors(catalogue, term) == FilterDoctors(catalogue, Text.ToLowerCase(term))
  {
    Text.ToLowerCaseIdempotent(term);
    forall d ensures MatchesSearch(d, term) == MatchesSearch(d, Text.ToLowerCase(term)) {
    }
    FilterSameVerdicts(catalogue, d => MatchesSearch(d, term), d => MatchesSearch(d, Text.ToLowerCase(term)));
  }

  lemma {:induction false} FilterSameVerdicts<T(!new)>(s: seq<T>, p: T -> bool, q: T -> bool)
    requires forall x :: p(x) == q(x)
    ensures Seqs.Filter(s, p) == Seqs.Filter(s, q)
    decreases |s|
  {
    if s != [] {
      FilterSameVerdicts(s[1..], p, q);
    }
  }

  /**
   * The `find` of the verify button: the first generated prescription whose
   * code equals the typed code exactly, or None.
   */
  function FindPrescription(prescriptions: seq<Prescription>, code: string): (r: Option<Prescription>)
    ensures r.None? <==> forall rx :: rx in prescriptions ==> rx.code != code
    ensures r.Some? ==> exists i :: 0 <= i < |prescriptions| && prescriptions[i] == r.value && r.value.code == code
                                    && forall j :: 0 <= j < i ==> prescriptions[j].code != code
  {
    Seqs.Find(prescriptions, (rx: Prescription) => rx.code == code)
  }

  /**
   * Looking up the code of a prescription appended to the list finds an
   * earlier prescription with that code if there is one, and otherwise the
   * appended one.
   */
  lemma FindAppendedPrescription(prescriptions: seq<Prescription>, rx: Prescription)
    ensures FindPrescription(prescriptions + [rx], rx.code) == match FindPrescription(prescriptions, rx.code)
                                                              case Some(earlier) => Some(earlier)
                                                              case None => Some(rx)
  {
    Seqs.FindAppend(prescriptions, rx, (p: Prescription) => p.code == rx.code);
  }

  /**
   * The new `editedProfile` of `handleToggleAllergy`: removing drops every
   * occurrence of the allergy and keeps the others in order; adding appends
   * it at the end. Nothing else in the profile changes.
   */
  function ToggleAllergy(p: Profile, allergy: string, remove: bool): (r: Profile)
    ensures r.(allergies := p.allergies) == p
    ensures remove ==> allergy !in r.allergies
    ensures remove ==> forall a :: a != allergy ==> multiset(r.allergies)[a] == multiset(p.allergies)[a]
    ensures remove ==> Seqs.IsSubsequence(r.allergies, p.allergies)
    ensures !remove ==> r.allergies == p.allergies + [allergy]
  {
    p.(allergies := if remove then Seqs.Filter(p.allergies, a => a != allergy) else p.allergies + [allergy])
  }

  /** The profile fields the edit form binds to a text input. */
  datatype ProfileField = FullName | Phone | BirthDate | BloodType

  function ProfileText(p: Profile, f: ProfileField): string {
    match f
    case FullName => p.fullName
    case Phone => p.phone
    case BirthDate => p.birthDate
    case BloodType => p.bloodType
  }

  /**
   * `setEditedProfile({...editedProfile, <field>: value})`: the field reads
   * back as the value, and every other field, text or list, is kept.
   */
  function EditProfileField(p: Profile, f: ProfileField, value: string): (r: Profile)
    ensures ProfileText(r, f) == value
    ensures forall g :: g != f ==> ProfileText(r, g) == ProfileText(p, g)
    ensures r.email == p.email && r.allergies == p.allergies && r.surgeries == p.surgeries
    ensures r.medicalHistory == p.medicalHistory && r.specialty == p.specialty && r.license == p.license
  {
    match f
    case FullName => p.(fullName := value)
    case Phone => p.(phone := value)
    case BirthDate => p.(birthDate := value)
    case BloodType => p.(bloodType := value)
  }

  /**
   * Adding an allergy the profile does not list (the selector only offers
   * those) and then removing it gives the profile back.
   */
  lemma AddThenRemoveAllergy(p: Profile, allergy: string)
    requires allergy !in p.allergies
    ensures ToggleAllergy(ToggleAllergy(p, allergy, false), allergy, true) == p
  {
    var keep := (a: string) => a != allergy;
    Seqs.FilterAppend(p.allergies, [allergy], keep);
    Seqs.FilterKeepsAll(p.allergies, keep);
    assert Seqs.Filter([allergy], keep) == [];
  }

  /** The appointment `handleBookAppointment` creates, with `Date.now()` passed in as `now`. */
  function NewAppointment(patientName: string, doctor: Listing, date: string, time: string, now: int): (a: Appointment)
    ensures a.id == now && a.kind == "Consulta"
    ensures a.patientName == patientName && a.doctorName == doctor.name
    ensures a.date == date && a.time == time
  {
    Appointment(now, patientName, doctor.name, date, time, "Consulta")
  }

  /**
   * The record `handleGeneratePrescription` builds: the form's fields, the
   * code with its QR address, the doctor's name and the date.
   */
  function IssuePrescription(form: PrescriptionForm, code: string, doctorName: string, date: string): (rx: Prescription)
    requires Uri.IsAscii(code)
    ensures rx.code == code && rx.qrUrl == GenerateQR(code)
    ensures rx.patientName == form.patientName && rx.diagnosis == form.diagnosis
    ensures rx.medications == form.medications && rx.instructions == form.instructions
    ensures rx.doctorName == doctorName && rx.date == date
  {
    Prescription(form.patientName, form.diagnosis, form.medications, form.instructions,
                 code, GenerateQR(code), doctorName, date)
  }
}
