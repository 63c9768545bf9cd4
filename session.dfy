/**
 * The state of the `App` component and the handlers that change it. Each
 * `useState` pair the handlers touch is a field of `App`, and each handler
 * is one method: its `modifies` clause lists the state setters it calls and
 * its `ensures` clauses give the new value of each. The clock, the random
 * suffix, the UTC date string and the values read from form inputs are
 * parameters.
 */
module Session {
  import opened Wrappers
  import Seqs
  import Uri
  import Calendar
  import Agenda
  import opened Records

  /** The values `currentView` takes. */
  datatype View =
    | LoginView
    | SearchView | AppointmentsView | PrescriptionsView | HistoryView | NotificationsView | ProfileView
    | AgendaView | PatientsView | PrescriptionsListView | VerifyView

  /** The views the sidebar offers each kind of user (one `MenuItem` per entry). */
  function Menu(kind: UserType): (views: seq<View>)
    ensures LoginView !in views
  {
    match kind
    case Patient => [SearchView, AppointmentsView, PrescriptionsView, HistoryView, NotificationsView, ProfileView]
    case Doctor => [AgendaView, PatientsView, PrescriptionsView, PrescriptionsListView, VerifyView]
  }

  /** The view a successful login opens. */
  function Landing(kind: UserType): (v: View)
    ensures v in Menu(kind)
  {
    if kind == Patient then SearchView else AgendaView
  }

  /** `verificationResult`: `null` before the first check, `false` when no prescription matched. */
  datatype Verification = NotChecked | NotFound | Found(prescription: Prescription)

  const LoginErrorMessage := "Email o contraseña incorrectos"

  /** A prescription as `handleGeneratePrescription` stores it: an ASCII `RX-` code and the QR address of that code. */
  predicate Issued(rx: Prescription) {
    && |rx.code| > 3 && rx.code[..3] == "RX-"
    && Uri.IsAscii(rx.code)
    && rx.qrUrl == GenerateQR(rx.code)
  }

  /** Every prescription `handleGeneratePrescription` builds from a generated code is an issued one. */
  lemma GeneratedIsIssued(form: PrescriptionForm, now: nat, suffix: string, doctorName: string, date: string)
    requires IsRandomSuffix(suffix)
    ensures Issued(IssuePrescription(form, GenerateCode(now, suffix), doctorName, date))
  {
  }

  class App {
    /** `[...USERS.patients, ...USERS.doctors]`, the accounts `handleLogin` searches. */
    const users: seq<Account>
    /** `SAMPLE_DOCTORS`, the catalogue the search view filters. */
    const catalogue: seq<Listing>

    var isAuthenticated: bool
    var currentUser: Option<Account>
    var userType: Option<UserType>
    var currentView: View
    var loginError: string
    var searchTerm: string
    var selectedDoctor: Option<Listing>
    var patientAppointments: seq<Appointment>
    var patientPrescriptions: seq<Prescription>
    var doctorAppointments: seq<Appointment>
    var newPrescription: PrescriptionForm
    var generatedPrescriptions: seq<Prescription>
    var qrVerificationCode: string
    var verificationResult: Verification
    var isEditingProfile: bool
    var editedProfile: Profile
    var currentMonth: int
    var currentYear: int

    /**
     * A user is logged in exactly when `currentUser` is set, `userType` is
     * that user's kind, and the view is the login screen when nobody is
     * logged in and one of the user's menu entries otherwise.
     */
    predicate SessionConsistent()
      reads this`isAuthenticated, this`currentUser, this`userType, this`currentView
    {
      && (isAuthenticated <==> currentUser.Some?)
      && userType == (if currentUser.Some? then Some(currentUser.value.kind) else None)
      && (!isAuthenticated ==> currentView == LoginView)
      && (isAuthenticated ==> currentView in Menu(currentUser.value.kind))
    }

    /**
     * The patient's prescriptions are the generated ones, and every one of
     * them carries the QR address of its code.
     */
    predicate PrescriptionsIssued()
      reads this`patientPrescriptions, this`generatedPrescriptions
    {
      && patientPrescriptions == generatedPrescriptions
      && forall rx :: rx in generatedPrescriptions ==> Issued(rx)
    }

    /**
     * What every handler keeps: the calendar month is a month index, the
     * session is consistent, the prescription form has at least one
     * medication row, and the prescriptions are issued ones.
     */
    predicate Valid()
      reads this
    {
      && 0 <= currentMonth < 12
      && SessionConsistent()
      && |newPrescription.medications| >= 1
      && PrescriptionsIssued()
    }

    /** The initial state; `month` and `year` are the clock's current month and year. */
    constructor (month: int, year: int)
      requires 0 <= month < 12
      ensures Valid()
      ensures !isAuthenticated && currentView == LoginView && loginError == ""
      ensures searchTerm == "" && selectedDoctor == None
      ensures patientAppointments == [] && generatedPrescriptions == [] && patientPrescriptions == []
      ensures doctorAppointments == SampleAgenda
      ensures newPrescription == EmptyForm && qrVerificationCode == "" && verificationResult == NotChecked
      ensures !isEditingProfile && editedProfile == EmptyProfile
      ensures currentMonth == month && currentYear == year
      ensures users == Accounts && catalogue == SampleDoctors
    {
      users := Accounts;
      catalogue := SampleDoctors;
      isAuthenticated := false;
      currentUser := None;
      userType := None;
      currentView := LoginView;
      loginError := "";
      searchTerm := "";
      selectedDoctor := None;
      patientAppointments := [];
      patientPrescriptions := [];
      doctorAppointments := SampleAgenda;
      newPrescription := EmptyForm;
      generatedPrescriptions := [];
      qrVerificationCode := "";
      verificationResult := NotChecked;
      isEditingProfile := false;
      editedProfile := EmptyProfile;
      currentMonth := month;
      currentYear := year;
    }

    /**
     * `handleLogin`: the first account of patients-then-doctors with exactly
     * this email and password logs in; with no such account only the error
     * message is set.
     */
    method Login(email: string, password: string)
      requires Valid()
      modifies this`loginError, this`currentUser, this`userType, this`isAuthenticated, this`currentView, this`editedProfile
      ensures Valid()
      ensures Authenticate(users, email, password).None? ==>
                && loginError == LoginErrorMessage
                && currentUser == old(currentUser) && userType == old(userType)
                && isAuthenticated == old(isAuthenticated) && currentView == old(currentView)
                && editedProfile == old(editedProfile)
      ensures Authenticate(users, email, password).Some? ==>
                var user := Authenticate(users, email, password).value;
                && loginError == ""
                && isAuthenticated && currentUser == Some(user) && userType == Some(user.kind)
                && currentView == Landing(user.kind)
                && editedProfile == (if user.kind == Patient then user.profile else old(editedProfile))
    {
      var found := Authenticate(users, email, password);
      Enter(found);
    }

    /**
     * The rest of `handleLogin` once the account is looked up: the account
     * logs in and lands on its kind's start view, a patient's profile is
     * copied into the edit form; without an account only the error is set.
     */
    method Enter(found: Option<Account>)
      requires Valid()
      modifies this`loginError, this`currentUser, this`userType, this`isAuthenticated, this`currentView, this`editedProfile
      ensures Valid()
      ensures found.None? ==>
                && loginError == LoginErrorMessage
                && currentUser == old(currentUser) && userType == old(userType)
                && isAuthenticated == old(isAuthenticated) && currentView == old(currentView)
                && editedProfile == old(editedProfile)
      ensures found.Some? ==>
                var user := found.value;
                && loginError == ""
                && isAuthenticated && currentUser == found && userType == Some(user.kind)
                && currentView == Landing(user.kind)
                && editedProfile == (if user.kind == Patient then user.profile else old(editedProfile))
    {
      loginError := "";
      if found.Some? {
        currentUser := found;
        userType := Some(found.value.kind);
        isAuthenticated := true;
        currentView := Landing(found.value.kind);
        if found.value.kind == Patient {
          editedProfile := found.value.profile;
        }
      } else {
        loginError := LoginErrorMessage;
      }
    }

    /** `handleLogout`: back to the login screen with nobody logged in; the other state is kept. */
    method Logout()
      requires Valid()
      modifies this`isAuthenticated, this`currentUser, this`userType, this`currentView
      ensures Valid()
      ensures !isAuthenticated && currentUser == None && userType == None && currentView == LoginView
    {
      isAuthenticated := false;
      currentUser := None;
      userType := None;
      currentView := LoginView;
    }

    /** A sidebar `MenuItem`: switches to one of the logged-in user's views. */
    method Navigate(view: View)
      requires Valid() && isAuthenticated && view in Menu(currentUser.value.kind)
      modifies this`currentView
      ensures Valid()
      ensures currentView == view
    {
      currentView := view;
    }

    /** The "Editar Perfil" button. */
    method StartEditingProfile()
      requires Valid()
      modifies this`isEditingProfile
      ensures Valid()
      ensures isEditingProfile
    {
      isEditingProfile := true;
    }

    /** A text input of the profile form: one field of `editedProfile` changes. */
    method EditProfile(field: ProfileField, value: string)
      requires Valid()
      modifies this`editedProfile
      ensures Valid()
      ensures editedProfile == EditProfileField(old(editedProfile), field, value)
    {
      editedProfile := EditProfileField(editedProfile, field, value);
    }

    /**
     * `handleSaveProfile`: the logged-in account now carries the edited
     * profile (its id, email, password and kind are kept) and editing ends.
     */
    method SaveProfile()
      requires Valid() && currentUser.Some?
      modifies this`currentUser, this`isEditingProfile
      ensures Valid()
      ensures currentUser == Some(old(currentUser).value.(profile := editedProfile))
      ensures !isEditingProfile
    {
      currentUser := Some(currentUser.value.(profile := editedProfile));
      isEditingProfile := false;
    }

    /** The "Cancelar" button: editing ends and the form goes back to the saved profile. */
    method CancelEditingProfile()
      requires Valid() && currentUser.Some?
      modifies this`isEditingProfile, this`editedProfile
      ensures Valid()
      ensures !isEditingProfile && editedProfile == currentUser.value.profile
    {
      isEditingProfile := false;
      editedProfile := currentUser.value.profile;
    }

    /** `handleToggleAllergy(allergy, remove)` on the edit form. */
    method ToggleAllergy(allergy: string, remove: bool)
      requires Valid()
      modifies this`editedProfile
      ensures Valid()
      ensures editedProfile == Records.ToggleAllergy(old(editedProfile), allergy, remove)
    {
      editedProfile := Records.ToggleAllergy(editedProfile, allergy, remove);
    }

    /** The search box. */
    method SetSearchTerm(term: string)
      requires Valid()
      modifies this`searchTerm
      ensures Valid()
      ensures searchTerm == term
    {
      searchTerm := term;
    }

    /**
     * `filteredDoctors`: the sample doctors the current search term matches,
     * in catalogue order; all of them while the term is empty.
     */
    function FilteredDoctors(): (r: seq<Listing>)
      reads this
      ensures forall d :: d in r <==> d in catalogue && MatchesSearch(d, searchTerm)
      ensures forall d :: multiset(r)[d] == if MatchesSearch(d, searchTerm) then multiset(catalogue)[d] else 0
      ensures Seqs.IsSubsequence(r, catalogue)
      ensures searchTerm == "" ==> r == catalogue
    {
      EmptySearchListsAll(catalogue);
      FilterDoctors(catalogue, searchTerm)
    }

    /** The "Agendar" button of a listed doctor opens the booking dialog. */
    method SelectDoctor(doctor: Listing)
      requires Valid() && doctor in FilteredDoctors()
      modifies this`selectedDoctor
      ensures Valid()
      ensures selectedDoctor == Some(doctor)
    {
      selectedDoctor := Some(doctor);
    }

    /** The close button of the booking dialog. */
    method CloseBooking()
      requires Valid()
      modifies this`selectedDoctor
      ensures Valid()
      ensures selectedDoctor == None
    {
      selectedDoctor := None;
    }

    /**
     * `handleBookAppointment`: a "Consulta" for the logged-in patient is
     * appended to the patient's appointments, the earlier ones kept in
     * place, and the booking dialog closes.
     */
    method BookAppointment(doctor: Listing, date: string, time: string, now: int)
      requires Valid() && currentUser.Some?
      modifies this`patientAppointments, this`selectedDoctor
      ensures Valid()
      ensures patientAppointments == old(patientAppointments) + [NewAppointment(currentUser.value.profile.fullName, doctor, date, time, now)]
      ensures selectedDoctor == None
    {
      var apt := NewAppointment(currentUser.value.profile.fullName, doctor, date, time, now);
      patientAppointments := patientAppointments + [apt];
      selectedDoctor := None;
    }

    /**
     * The "Confirmar Cita" button: books with the selected doctor, and does
     * nothing at all while the date input is empty.
     */
    method ConfirmBooking(date: string, time: string, now: int)
      requires Valid() && selectedDoctor.Some? && currentUser.Some?
      modifies this`patientAppointments, this`selectedDoctor
      ensures Valid()
      ensures date == "" ==> patientAppointments == old(patientAppointments) && selectedDoctor == old(selectedDoctor)
      ensures date != "" ==>
                && patientAppointments == old(patientAppointments) + [NewAppointment(currentUser.value.profile.fullName, old(selectedDoctor).value, date, time, now)]
                && selectedDoctor == None
    {
      if date != "" {
        BookAppointment(selectedDoctor.value, date, time, now);
      }
    }

    /** The patient-name input of the prescription form. */
    method SetPrescriptionPatient(name: string)
      requires Valid()
      modifies this`newPrescription
      ensures Valid()
      ensures newPrescription == old(newPrescription).(patientName := name)
    {
      newPrescription := newPrescription.(patientName := name);
    }

    /** The diagnosis input of the prescription form. */
    method SetPrescriptionDiagnosis(diagnosis: string)
      requires Valid()
      modifies this`newPrescription
      ensures Valid()
      ensures newPrescription == old(newPrescription).(diagnosis := diagnosis)
    {
      newPrescription := newPrescription.(diagnosis := diagnosis);
    }

    /**
     * `updateMed(i, field, value)`: one field of row i changes; the other
     * fields of that row, the other rows and the rest of the form are kept.
     */
    method UpdateMed(i: nat, field: MedField, value: string)
      requires Valid() && i < |newPrescription.medications|
      modifies this`newPrescription
      ensures Valid()
      ensures var meds := old(newPrescription.medications);
              newPrescription == old(newPrescription).(medications := meds[i := SetField(meds[i], field, value)])
    {
      var meds := newPrescription.medications;
      meds := meds[i := SetField(meds[i], field, value)];
      newPrescription := newPrescription.(medications := meds);
    }

    /** `addMed`: a blank medication row is appended to the form. */
    method AddMed()
      requires Valid()
      modifies this`newPrescription
      ensures Valid()
      ensures newPrescription == old(newPrescription).(medications := old(newPrescription.medications) + [BlankMedication])
    {
      newPrescription := newPrescription.(medications := newPrescription.medications + [BlankMedication]);
    }

    /**
     * `handleGeneratePrescription`: the form becomes a prescription with the
     * code made from `now` and `suffix`, the QR address of that code, the
     * doctor's name and `today` (the UTC date); the same record is appended
     * to both prescription lists, the earlier entries kept, and the form
     * goes back to empty with one blank medication.
     */
    method GeneratePrescription(now: nat, suffix: string, today: string)
      requires Valid() && currentUser.Some? && IsRandomSuffix(suffix)
      modifies this`generatedPrescriptions, this`patientPrescriptions, this`newPrescription
      ensures Valid()
      ensures var code := GenerateCode(now, suffix);
              var rx := IssuePrescription(old(newPrescription), code, currentUser.value.profile.fullName, today);
              && generatedPrescriptions == old(generatedPrescriptions) + [rx]
              && patientPrescriptions == old(patientPrescriptions) + [rx]
      ensures newPrescription == EmptyForm
    {
      var code := GenerateCode(now, suffix);
      var rx := IssuePrescription(newPrescription, code, currentUser.value.profile.fullName, today);
      GeneratedIsIssued(newPrescription, now, suffix, currentUser.value.profile.fullName, today);
      Record(rx);
    }

    /**
     * The state updates of `handleGeneratePrescription` once the record is
     * built: it is appended to both lists and the form is reset.
     */
    method Record(rx: Prescription)
      requires Valid() && Issued(rx)
      modifies this`generatedPrescriptions, this`patientPrescriptions, this`newPrescription
      ensures Valid()
      ensures generatedPrescriptions == old(generatedPrescriptions) + [rx]
      ensures patientPrescriptions == old(patientPrescriptions) + [rx]
      ensures newPrescription == EmptyForm
    {
      generatedPrescriptions := generatedPrescriptions + [rx];
      patientPrescriptions := patientPrescriptions + [rx];
      newPrescription := EmptyForm;
    }

    /** The code input of the verification view. */
    method SetVerificationCode(code: string)
      requires Valid()
      modifies this`qrVerificationCode
      ensures Valid()
      ensures qrVerificationCode == code
    {
      qrVerificationCode := code;
    }

    /**
     * The "Verificar" button: the first generated prescription whose code
     * is exactly the typed code, or `NotFound`; the prescriptions are only read.
     */
    method Verify()
      requires Valid()
      modifies this`verificationResult
      ensures Valid()
      ensures verificationResult.NotFound? <==> forall rx :: rx in generatedPrescriptions ==> rx.code != qrVerificationCode
      ensures verificationResult.Found? ==>
                && verificationResult.prescription in generatedPrescriptions
                && verificationResult.prescription.code == qrVerificationCode
                && verificationResult == Found(FindPrescription(generatedPrescriptions, qrVerificationCode).value)
      ensures verificationResult != NotChecked
    {
      var found := FindPrescription(generatedPrescriptions, qrVerificationCode);
      verificationResult := if found.Some? then Found(found.value) else NotFound;
    }

    /** The "previous month" button of the calendar. */
    method PreviousMonth()
      requires Valid()
      modifies this`currentMonth, this`currentYear
      ensures Valid()
      ensures Calendar.YearMonth(currentYear, currentMonth) == Calendar.Previous(Calendar.YearMonth(old(currentYear), old(currentMonth)))
    {
      if currentMonth == 0 {
        currentMonth := 11;
        currentYear := currentYear - 1;
      } else {
        currentMonth := currentMonth - 1;
      }
    }

    /** The "next month" button of the calendar. */
    method NextMonth()
      requires Valid()
      modifies this`currentMonth, this`currentYear
      ensures Valid()
      ensures Calendar.YearMonth(currentYear, currentMonth) == Calendar.Following(Calendar.YearMonth(old(currentYear), old(currentMonth)))
    {
      if currentMonth == 11 {
        currentMonth := 0;
        currentYear := currentYear + 1;
      } else {
        currentMonth := currentMonth + 1;
      }
    }

    /** Going back one month and forward again shows the same month. */
    method BackAndForth()
      requires Valid()
      modifies this`currentMonth, this`currentYear
      ensures Valid()
      ensures currentMonth == old(currentMonth) && currentYear == old(currentYear)
    {
      ghost var start := Calendar.YearMonth(currentYear, currentMonth);
      PreviousMonth();
      NextMonth();
      Calendar.NavigationInverse(start);
    }

    /**
     * The cells `renderCalendar` lays out for the shown month: a blank per
     * weekday before the 1st, then the days in order.
     */
    function CalendarCells(): (cells: seq<Calendar.Cell>)
      reads this
      requires Valid()
      ensures |cells| == Calendar.FirstDayOfMonth(currentYear, currentMonth) + Calendar.DaysInMonth(currentYear, currentMonth)
      ensures forall i :: 0 <= i < |cells| ==> (cells[i].Blank? <==> i < Calendar.FirstDayOfMonth(currentYear, currentMonth))
      ensures forall i :: 0 <= i < |cells| && cells[i].Day? ==> cells[i].day == i - Calendar.FirstDayOfMonth(currentYear, currentMonth) + 1
    {
      Calendar.MonthGrid(currentYear, currentMonth)
    }

    /** `getAppointmentsForDay(day)`: the agenda's appointments dated with the day's key, in agenda order. */
    function DayAppointments(day: nat): (r: seq<Appointment>)
      reads this
      requires Valid() && day < 100
      ensures forall a :: a in r <==> a in doctorAppointments && a.date == Agenda.DayKey(currentYear, currentMonth, day)
      ensures forall a :: multiset(r)[a] == if a.date == Agenda.DayKey(currentYear, currentMonth, day) then multiset(doctorAppointments)[a] else 0
      ensures Seqs.IsSubsequence(r, doctorAppointments)
    {
      Agenda.AppointmentsForDay(doctorAppointments, currentYear, currentMonth, day)
    }
  }
}
