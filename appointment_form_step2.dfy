/** The appointment step of the form: required-field and time-order
    validation, and the single-field change handlers. */
module AppointmentFormStep2 {
  import opened Wrappers
  import opened Text
  import opened ClockTimes
  import opened AppointmentTypes

  datatype AppointmentData = AppointmentData(
    procedure_id: string,
    therapist_id: string,
    date: string,
    start_time: string,
    end_time: string,
    status: Status)

  const ProcedureKey := "procedure_id"
  const TherapistKey := "therapist_id"
  const DateKey := "date"
  const StartKey := "start_time"
  const EndKey := "end_time"

  const ProcedureRequired := "Selecione um procedimento"
  const TherapistRequired := "Selecione um profissional"
  const DateRequired := "Data é obrigatória"
  const StartRequired := "Hora de início é obrigatória"
  const EndRequired := "Hora de fim é obrigatória"
  const EndBeforeStart := "Hora de fim deve ser posterior ao início"

  /** Both times are given and the end is not after the start, compared as
      strings (`start_time >= end_time`). */
  predicate TimesOutOfOrder(d: AppointmentData)
  {
    d.start_time != "" && d.end_time != "" && !StrLess(d.start_time, d.end_time)
  }

  /** The error map of `handleSubmit`: each of the four leading fields has its
      required error exactly when empty; `end_time` has an error exactly when
      it is empty (required) or the times are out of order (ordering); the
      status is never checked. */
  function AppointmentErrors(d: AppointmentData): (r: map<string, string>)
    ensures r.Keys <= {ProcedureKey, TherapistKey, DateKey, StartKey, EndKey}
    ensures ProcedureKey in r <==> d.procedure_id == ""
    ensures TherapistKey in r <==> d.therapist_id == ""
    ensures DateKey in r <==> d.date == ""
    ensures StartKey in r <==> d.start_time == ""
    ensures EndKey in r <==> d.end_time == "" || TimesOutOfOrder(d)
    ensures ProcedureKey in r ==> r[ProcedureKey] == ProcedureRequired
    ensures TherapistKey in r ==> r[TherapistKey] == TherapistRequired
    ensures DateKey in r ==> r[DateKey] == DateRequired
    ensures StartKey in r ==> r[StartKey] == StartRequired
    ensures d.end_time == "" ==> r[EndKey] == EndRequired
    ensures TimesOutOfOrder(d) ==> r[EndKey] == EndBeforeStart
  {
    var e0: map<string, string> := map[];
    var e1 := if d.procedure_id == "" then e0[ProcedureKey := ProcedureRequired] else e0;
    var e2 := if d.therapist_id == "" then e1[TherapistKey := TherapistRequired] else e1;
    var e3 := if d.date == "" then e2[DateKey := DateRequired] else e2;
    var e4 := if d.start_time == "" then e3[StartKey := StartRequired] else e3;
    var e5 := if d.end_time == "" then e4[EndKey := EndRequired] else e4;
    if TimesOutOfOrder(d) then e5[EndKey := EndBeforeStart] else e5
  }

  /** The data passes validation exactly when every text field is filled and
      the end is after the start. */
  lemma AcceptedIff(d: AppointmentData)
    ensures AppointmentErrors(d) == map[] <==>
              && d.procedure_id != "" && d.therapist_id != "" && d.date != ""
              && d.start_time != "" && d.end_time != "" && StrLess(d.start_time, d.end_time)
  {
    var r := AppointmentErrors(d);
    if d.procedure_id == "" { assert ProcedureKey in r; }
    else if d.therapist_id == "" { assert TherapistKey in r; }
    else if d.date == "" { assert DateKey in r; }
    else if d.start_time == "" { assert StartKey in r; }
    else if d.end_time == "" || !StrLess(d.start_time, d.end_time) { assert EndKey in r; }
    else {
      assert r.Keys == {};
    }
  }

  /** For times picked from a time input ("HH:MM"), the ordering error falls
      exactly on an end minute that is not after the start minute, equal
      times included. */
  lemma OrderingIsByMinutes(d: AppointmentData)
    requires IsHHMM(d.start_time) && IsHHMM(d.end_time)
    ensures TimesOutOfOrder(d) <==> ParseHHMM(d.end_time) <= ParseHHMM(d.start_time)
    ensures d.start_time == d.end_time ==> AppointmentErrors(d)[EndKey] == EndBeforeStart
  {
    StrLessIsTimeOrder(d.start_time, d.end_time);
  }

  /** The error map `handleSubmit` builds, one check after another; a time
      ordering error overwrites the end time's entry. */
  method ValidateAppointment(d: AppointmentData) returns (newErrors: map<string, string>)
    ensures newErrors == AppointmentErrors(d)
  {
    newErrors := map[];
    if d.procedure_id == "" {
      newErrors := newErrors[ProcedureKey := ProcedureRequired];
    }
    if d.therapist_id == "" {
      newErrors := newErrors[TherapistKey := TherapistRequired];
    }
    if d.date == "" {
      newErrors := newErrors[DateKey := DateRequired];
    }
    if d.start_time == "" {
      newErrors := newErrors[StartKey := StartRequired];
    }
    if d.end_time == "" {
      newErrors := newErrors[EndKey := EndRequired];
    }
    if d.start_time != "" && d.end_time != "" && !StrLess(d.start_time, d.end_time) {
      newErrors := newErrors[EndKey := EndBeforeStart];
    }
  }

  /** One change reported through `onAppointmentDataChange`. */
  datatype Change =
    | SetProcedure(procedure_id: string)
    | SetTherapist(therapist_id: string)
      /** The calendar's selection; its ISO day text (`toISOString()`'s date
          part) when a day is picked, none when it is cleared. */
    | PickDate(picked: Option<string>)
    | SetStartTime(start_time: string)
    | SetEndTime(end_time: string)
    | SetStatus(status: Status)

  /** `{ ...appointmentData, field: value }` for the field the change names. */
  function ApplyChange(d: AppointmentData, c: Change): (r: AppointmentData)
    ensures r.procedure_id == (if c.SetProcedure? then c.procedure_id else d.procedure_id)
    ensures r.therapist_id == (if c.SetTherapist? then c.therapist_id else d.therapist_id)
    ensures r.date == (if c.PickDate? then (if c.picked.Some? then c.picked.value else "") else d.date)
    ensures r.start_time == (if c.SetStartTime? then c.start_time else d.start_time)
    ensures r.end_time == (if c.SetEndTime? then c.end_time else d.end_time)
    ensures r.status == (if c.SetStatus? then c.status else d.status)
  {
    match c
    case SetProcedure(v) => d.(procedure_id := v)
    case SetTherapist(v) => d.(therapist_id := v)
    case PickDate(picked) => d.(date := if picked.Some? then picked.value else "")
    case SetStartTime(v) => d.(start_time := v)
    case SetEndTime(v) => d.(end_time := v)
    case SetStatus(v) => d.(status := v)
  }

  /** The error keys a change can affect: its own field, and `end_time` as
      well for a start-time change, since the ordering check reads both. */
  function AffectedKeys(c: Change): set<string>
  {
    match c
    case SetProcedure(_) => {ProcedureKey}
    case SetTherapist(_) => {TherapistKey}
    case PickDate(_) => {DateKey}
    case SetStartTime(_) => {StartKey, EndKey}
    case SetEndTime(_) => {EndKey}
    case SetStatus(_) => {}
  }

  /** A change leaves the validation outcome of every other field as it was;
      a status change leaves the whole error map as it was. */
  lemma ChangeIsLocal(d: AppointmentData, c: Change, k: string)
    requires k !in AffectedKeys(c)
    ensures k in AppointmentErrors(ApplyChange(d, c)) <==> k in AppointmentErrors(d)
    ensures k in AppointmentErrors(d) ==> AppointmentErrors(ApplyChange(d, c))[k] == AppointmentErrors(d)[k]
  {
    ErrorDependsOnFields(d, ApplyChange(d, c), k);
  }

  /** The error under one key is decided by the fields that key's checks
      read. */
  lemma ErrorDependsOnFields(d: AppointmentData, d': AppointmentData, k: string)
    requires k == ProcedureKey ==> d'.procedure_id == d.procedure_id
    requires k == TherapistKey ==> d'.therapist_id == d.therapist_id
    requires k == DateKey ==> d'.date == d.date
    requires k == StartKey ==> d'.start_time == d.start_time
    requires k == EndKey ==> d'.start_time == d.start_time && d'.end_time == d.end_time
    ensures k in AppointmentErrors(d') <==> k in AppointmentErrors(d)
    ensures k in AppointmentErrors(d) ==> AppointmentErrors(d')[k] == AppointmentErrors(d)[k]
  {
    var r, r' := AppointmentErrors(d), AppointmentErrors(d');
    if k == EndKey {
      assert TimesOutOfOrder(d') == TimesOutOfOrder(d);
    } else if k !in {ProcedureKey, TherapistKey, DateKey, StartKey} {
      assert k !in r && k !in r';
    }
  }

  /** The appointment step's state: its `appointmentData` prop, the `errors`
      state, and the calls made to `onAppointmentDataChange` and `onSave`. */
  class AppointmentStep {
    const appointmentData: AppointmentData
    var errors: map<string, string>
    var dataChanges: seq<AppointmentData>
    var saveCalls: nat

    constructor (appointmentData: AppointmentData)
      ensures this.appointmentData == appointmentData
      ensures errors == map[] && dataChanges == [] && saveCalls == 0
    {
      this.appointmentData := appointmentData;
      errors := map[];
      dataChanges := [];
      saveCalls := 0;
    }

    /** `handleSubmit`: the errors state is replaced by the newly built map,
        so nothing from an earlier submit survives, and `onSave` is called
        exactly when that map is empty. */
    method HandleSubmit()
      modifies this
      ensures errors == AppointmentErrors(appointmentData)
      ensures saveCalls == old(saveCalls) + (if errors == map[] then 1 else 0)
      ensures dataChanges == old(dataChanges)
    {
      var newErrors := ValidateAppointment(appointmentData);
      errors := newErrors;
      assert |newErrors| == 0 <==> newErrors == map[] by {
        if |newErrors| == 0 { assert newErrors.Keys == {}; }
      }
      if |newErrors| == 0 {
        saveCalls := saveCalls + 1;
      }
    }

    /** A select, calendar or time-input handler: reports a copy of the data
        with the one field replaced. */
    method HandleChange(c: Change)
      modifies this
      ensures dataChanges == old(dataChanges) + [ApplyChange(appointmentData, c)]
      ensures errors == old(errors) && saveCalls == old(saveCalls)
    {
      dataChanges := dataChanges + [ApplyChange(appointmentData, c)];
    }
  }
}
