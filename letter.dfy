/**
 * The experience-letter component: the letter's data, the form the user
 * fills in, and the two operations that move between the form view and the
 * letter view. `generateLetter` copies the form into the letter, turning the
 * three ISO date inputs into long-form dates; the getters address the
 * employee by first name and by the pronouns the title selects.
 */
module ExperienceLetter {
  import opened Wrappers
  import opened Dates
  import Names

  /** The component's `letterData` record: the text the letter template shows. */
  datatype LetterData = LetterData(
    companyName: string,
    date: string,
    dateInput: string,
    employeeName: string,
    employeeCode: string,
    startDate: string,
    startDateInput: string,
    endDate: string,
    endDateInput: string,
    designation: string,
    hrName: string,
    companyFullName: string,
    title: string)

  /** The value of the reactive form `letterForm`: one text per control. */
  datatype FormValue = FormValue(
    dateInput: string,
    employeeCode: string,
    title: string,
    employeeName: string,
    startDateInput: string,
    endDateInput: string,
    designation: string)

  /**
   * Every control carries `Validators.required`, which rejects only the
   * empty text: the form is valid exactly when no control is empty.
   */
  predicate FormValid(f: FormValue)
    ensures FormValid(f) <==>
      f.dateInput != "" && f.employeeCode != "" && f.title != "" && f.employeeName != ""
      && f.startDateInput != "" && f.endDateInput != "" && f.designation != ""
  {
    "" !in Controls(f)
  }

  /** The values of the seven form controls, in the order the constructor declares them. */
  function Controls(f: FormValue): seq<string>
  {
    [f.dateInput, f.employeeCode, f.title, f.employeeName, f.startDateInput, f.endDateInput, f.designation]
  }

  /**
   * The letter the component starts with, given the text `getTodayDate`
   * returns. The seeded employee is addressed as "Manvendra" and by the
   * pronouns of "Mr".
   */
  function SeededLetterData(todayText: string): (data: LetterData)
    ensures data.dateInput == todayText
    ensures data.startDateInput == "" && data.endDateInput == ""
  {
    LetterData(
      "CODESMOTECH", "31st August 2025", todayText, "Mr Manvendra Singh", "1157",
      "23rd April 2025", "", "3rd August 2025", "", "Quality Assurance", "Shreya G",
      "Codesmotech Consulting pvt ltd", "Mr")
  }

  /** The seeded letter addresses "Manvendra" by the pronouns of "Mr". */
  lemma SeededLetterAddressing(todayText: string)
    ensures var data := SeededLetterData(todayText);
      Names.FirstName(data.employeeName) == "Manvendra" && Names.SubjectPronoun(data.title) == "he"
  {
    Names.FirstNameOfSeededEmployee();
  }

  /**
   * The seeded display dates are not derived from the seeded raw inputs:
   * the start and end inputs are empty, which would format as "".
   */
  lemma SeededDatesNotFromInputs(todayText: string)
    ensures var data := SeededLetterData(todayText);
      FormatDate(data.startDateInput) != data.startDate && FormatDate(data.endDateInput) != data.endDate
  {
    var data := SeededLetterData(todayText);
    assert data.startDate[0] == '2' && data.endDate[0] == '3';
  }

  /**
   * The form the constructor builds, given the text `getTodayDate` returns:
   * today's date and the title "Mr" are filled in, the other controls are
   * empty, so the form starts out invalid.
   */
  function InitialFormValue(todayText: string): (f: FormValue)
    ensures !FormValid(f)
    ensures f.dateInput == todayText && f.title == "Mr"
  {
    FormValue(todayText, "", "Mr", "", "", "", "")
  }

  /**
   * The letter `generateLetter` leaves behind when the form is valid: the
   * three dates formatted from the form's inputs, four fields copied from
   * the form, every other field of the old letter kept. In particular the
   * company, the HR signatory and the letter's three raw date inputs are
   * kept: the `*Input` fields are not refreshed from the form.
   */
  function Generated(data: LetterData, f: FormValue): (r: LetterData)
    ensures r.companyName == data.companyName && r.hrName == data.hrName
    ensures r.companyFullName == data.companyFullName
    ensures r.dateInput == data.dateInput && r.startDateInput == data.startDateInput
    ensures r.endDateInput == data.endDateInput
  {
    data.(
      date := FormatDate(f.dateInput),
      startDate := FormatDate(f.startDateInput),
      endDate := FormatDate(f.endDateInput),
      employeeCode := f.employeeCode,
      title := f.title,
      employeeName := f.employeeName,
      designation := f.designation)
  }

  /** The fields generation overwrites do not depend on what the old letter held there. */
  lemma GeneratedForgetsOldEntries(data1: LetterData, data2: LetterData, f: FormValue)
    requires data1.companyName == data2.companyName && data1.hrName == data2.hrName
    requires data1.companyFullName == data2.companyFullName && data1.dateInput == data2.dateInput
    requires data1.startDateInput == data2.startDateInput && data1.endDateInput == data2.endDateInput
    ensures Generated(data1, f) == Generated(data2, f)
  {
  }

  /** Generating twice from the same form gives the same letter as generating once. */
  lemma GeneratedIdempotent(data: LetterData, f: FormValue)
    ensures Generated(Generated(data, f), f) == Generated(data, f)
  {
  }

  /**
   * A valid form yields non-empty dates, and a date input JavaScript
   * cannot read shows as the Invalid Date rendering.
   */
  lemma GeneratedDatesOfValidForm(data: LetterData, f: FormValue)
    requires FormValid(f)
    ensures var r := Generated(data, f);
      r.date != "" && r.startDate != "" && r.endDate != ""
      && (ParseIsoDate(f.dateInput).None? ==> r.date == InvalidDateText)
      && (ParseIsoDate(f.startDateInput).None? ==> r.startDate == InvalidDateText)
      && (ParseIsoDate(f.endDateInput).None? ==> r.endDate == InvalidDateText)
  {
  }

  /**
   * The letter's dates lose nothing: each date the form held is read back
   * from the long form the letter shows.
   */
  lemma GeneratedDatesReadBack(data: LetterData, f: FormValue)
    ensures var r := Generated(data, f);
      (ParseIsoDate(f.dateInput).Some? ==> ReadLongForm(r.date) == ParseIsoDate(f.dateInput))
      && (ParseIsoDate(f.startDateInput).Some? ==> ReadLongForm(r.startDate) == ParseIsoDate(f.startDateInput))
      && (ParseIsoDate(f.endDateInput).Some? ==> ReadLongForm(r.endDate) == ParseIsoDate(f.endDateInput))
  {
    var r := Generated(data, f);
    if ParseIsoDate(f.dateInput).Some? {
      FormatDateReadsBack(f.dateInput);
    }
    if ParseIsoDate(f.startDateInput).Some? {
      FormatDateReadsBack(f.startDateInput);
    }
    if ParseIsoDate(f.endDateInput).Some? {
      FormatDateReadsBack(f.endDateInput);
    }
  }

  /** Left at today's default, the letter's date is today's long form. */
  lemma GeneratedDateOfToday(data: LetterData, f: FormValue, today: CalendarDate)
    requires IsValid(today) && 1000 <= today.year <= 9999
    requires f.dateInput == IsoDateText(today)
    ensures Generated(data, f).date == LongForm(today)
  {
    FormatIsoDateText(today);
  }

  /**
   * The generated letter addresses the employee the form names, by the
   * pronouns of the form's title: the masculine ones exactly for "Mr".
   */
  lemma GeneratedAddressing(data: LetterData, f: FormValue)
    ensures var r := Generated(data, f);
      Names.FirstName(r.employeeName) == Names.FirstName(f.employeeName)
      && (Names.SubjectPronoun(r.title) == "he" <==> f.title == "Mr")
      && (Names.PossessivePronoun(r.title) == "his" <==> f.title == "Mr")
      && (Names.ObjectPronoun(r.title) == "him" <==> f.title == "Mr")
  {
  }

  /** The component's state: which view shows, the letter, and the form's current value. */
  class ExperienceLetterComponent {
    var showForm: bool
    var letterData: LetterData
    var letterForm: FormValue

    /** The field initialisers and the form the constructor builds, with today's date as text. */
    constructor(todayText: string)
      ensures showForm
      ensures letterData == SeededLetterData(todayText)
      ensures letterForm == InitialFormValue(todayText)
    {
      showForm := true;
      letterData := SeededLetterData(todayText);
      letterForm := InitialFormValue(todayText);
    }

    /** `toggleForm`: switches between the form view and the letter view and changes nothing else. */
    method ToggleForm()
      modifies this
      ensures showForm == !old(showForm)
      ensures letterData == old(letterData) && letterForm == old(letterForm)
    {
      showForm := !showForm;
    }

    /**
     * `generateLetter`: an invalid form changes nothing the model holds; a
     * valid one fills the letter from the form and shows the letter view.
     */
    method GenerateLetter()
      modifies this
      ensures letterForm == old(letterForm)
      ensures !FormValid(old(letterForm)) ==> showForm == old(showForm) && letterData == old(letterData)
      ensures FormValid(old(letterForm)) ==> !showForm && letterData == Generated(old(letterData), old(letterForm))
    {
      if FormValid(letterForm) {
        letterData := Generated(letterData, letterForm);
        showForm := false;
      }
    }

    /** `getFirstName`, on the letter's employee name; see `Names.FirstName`. */
    function FirstName(): string
      reads this
    {
      Names.FirstName(letterData.employeeName)
    }

    /** `getSubjectPronoun`, on the letter's title; see `Names.SubjectPronoun`. */
    function SubjectPronoun(): string
      reads this
    {
      Names.SubjectPronoun(letterData.title)
    }

    /** `getPossessivePronoun`, on the letter's title; see `Names.PossessivePronoun`. */
    function PossessivePronoun(): string
      reads this
    {
      Names.PossessivePronoun(letterData.title)
    }

    /** `getObjectPronoun`, on the letter's title; see `Names.ObjectPronoun`. */
    function ObjectPronoun(): string
      reads this
    {
      Names.ObjectPronoun(letterData.title)
    }
  }

  /** Toggling twice returns to the view the component started in, with its data untouched. */
  method ToggleTwice(c: ExperienceLetterComponent)
    modifies c
    ensures c.showForm == old(c.showForm)
    ensures c.letterData == old(c.letterData) && c.letterForm == old(c.letterForm)
  {
    c.ToggleForm();
    c.ToggleForm();
  }

  /**
   * A freshly built component still shows the form after `generateLetter`:
   * the form it starts with is invalid, so the seeded letter stays.
   */
  method GenerateOnOpening(today: CalendarDate) returns (c: ExperienceLetterComponent)
    ensures fresh(c)
    ensures c.showForm && c.letterData == SeededLetterData(IsoDateText(today))
    ensures c.FirstName() == "Manvendra" && c.SubjectPronoun() == "he"
  {
    c := new ExperienceLetterComponent(IsoDateText(today));
    c.GenerateLetter();
    SeededLetterAddressing(IsoDateText(today));
  }

  /**
   * The user fills the form with a valid value and generates: the letter
   * view shows, addressing the employee the form names, with dates that
   * read back as the form's dates; a second `generateLetter` changes nothing.
   */
  method FillAndGenerate(c: ExperienceLetterComponent, f: FormValue)
    requires FormValid(f)
    modifies c
    ensures !c.showForm && c.letterForm == f
    ensures c.FirstName() == Names.FirstName(f.employeeName)
    ensures c.SubjectPronoun() == "he" <==> f.title == "Mr"
    ensures ParseIsoDate(f.dateInput).Some? ==> ReadLongForm(c.letterData.date) == ParseIsoDate(f.dateInput)
    ensures c.letterData.companyName == old(c.letterData.companyName)
  {
    c.letterForm := f;
    c.GenerateLetter();
    GeneratedDatesReadBack(old(c.letterData), f);
    GeneratedAddressing(old(c.letterData), f);
    var once := c.letterData;
    c.GenerateLetter();
    GeneratedIdempotent(old(c.letterData), f);
    assert c.letterData == once;
  }
}
