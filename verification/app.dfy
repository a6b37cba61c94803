/**
 * The application state controller: the page's state slots as the fields of
 * a `Session`, the handlers that update them, and the pure tests and
 * projections the page derives from them (submit enabling, input validation,
 * the loading-step progression, the critical-gaps list and which sections are
 * visible).
 */
module App {
  import opened Wrappers
  import opened Types
  import GeminiService

  const SAMPLE_RESUME_TEXT: string :=
    "\nJOHN DOE\nMid-Level React Developer\n\nEXPERIENCE\n"
    + "Frontend Developer | TechCorp | 2021 - Present\n"
    + "- Built dashboard interfaces using React and Redux.\n"
    + "- Implemented responsive designs using Tailwind CSS.\n"
    + "- Collaborated with backend teams to integrate REST APIs.\n"
    + "- Unit testing with Jest and React Testing Library.\n\n"
    + "Junior Web Developer | AgencyXYZ | 2019 - 2021\n"
    + "- Developed landing pages using HTML, CSS, and JavaScript.\n"
    + "- Maintained WordPress sites for small business clients.\n\n"
    + "SKILLS\n- React, JavaScript (ES6), HTML5, CSS3\n- Git, GitHub, VS Code\n- Basic Node.js familiarity\n"

  /** The built-in plain-text sample resume. */
  const SAMPLE_FILE: UploadFile := UploadFile("john_doe_sample_resume.txt", "text/plain", SAMPLE_RESUME_TEXT)
  const SAMPLE_ROLE: string := "Senior Full Stack Engineer"

  const INVALID_PDF: string := "Please upload a valid PDF file."
  const MISSING_INPUT: string := "Please upload a resume and enter a target role."
  const UNEXPECTED_FAILURE: string := "An unexpected error occurred during analysis."

  /** The number of status captions the loading progression walks through. */
  const LOADING_STEP_COUNT: nat := 5

  const LOADING_MESSAGES: seq<string> := [
    "Reading Document...",
    "Understanding Context...",
    "Comparing Skills...",
    "Finding Gaps...",
    "Finalizing Report..."
  ]

  // ---------------------------------------------------------------------------
  // Trimming and validating the target role
  // ---------------------------------------------------------------------------

  /** The characters ECMAScript's `trim` removes: white space and line terminators. */
  predicate IsWhitespace(c: char)
  {
    var n := c as int;
    || 0x09 <= n <= 0x0D  // tab, line feed, vertical tab, form feed, carriage return
    || n == 0x20 || n == 0xA0 || n == 0x1680
    || 0x2000 <= n <= 0x200A
    || n == 0x2028 || n == 0x2029 || n == 0x202F || n == 0x205F || n == 0x3000
    || n == 0xFEFF
  }

  /** A string made of white space only (the empty string included). */
  predicate IsBlank(s: string)
  {
    forall i :: 0 <= i < |s| ==> IsWhitespace(s[i])
  }

  /** `s` with its leading white space removed: empty exactly for a blank `s`. */
  function TrimStart(s: string): (t: string)
    ensures |t| <= |s|
    ensures t == [] <==> IsBlank(s)
    ensures t == [] || !IsWhitespace(t[0])
  {
    if s != [] && IsWhitespace(s[0]) then
      var t := TrimStart(s[1..]);
      assert IsBlank(s) <==> IsBlank(s[1..]) by {
        if IsBlank(s[1..]) {
          forall i | 0 <= i < |s| ensures IsWhitespace(s[i]) {
            if i > 0 { assert s[i] == s[1..][i - 1]; }
          }
        }
      }
      t
    else
      s
  }

  /** `s` with its trailing white space removed: empty exactly for a blank `s`. */
  function TrimEnd(s: string): (t: string)
    ensures |t| <= |s|
    ensures t == [] <==> IsBlank(s)
    ensures t == [] || !IsWhitespace(t[|t| - 1])
  {
    if s != [] && IsWhitespace(s[|s| - 1]) then
      var t := TrimEnd(s[..|s| - 1]);
      assert IsBlank(s) <==> IsBlank(s[..|s| - 1]) by {
        if IsBlank(s[..|s| - 1]) {
          forall i | 0 <= i < |s| ensures IsWhitespace(s[i]) {
            if i < |s| - 1 { assert s[i] == s[..|s| - 1][i]; }
          }
        }
      }
      t
    else
      s
  }

  /** TrimStart removes exactly the leading white space: a suffix remains. */
  lemma {:induction false} TrimStartIsSuffix(s: string)
    ensures TrimStart(s) == s[|s| - |TrimStart(s)|..]
    ensures IsBlank(s[..|s| - |TrimStart(s)|])
  {
    if s != [] && IsWhitespace(s[0]) {
      TrimStartIsSuffix(s[1..]);
      var t := TrimStart(s[1..]);
      assert s[1..][|s| - 1 - |t|..] == s[|s| - |t|..];
      var dropped := s[..|s| - |t|];
      forall i | 0 <= i < |dropped| ensures IsWhitespace(dropped[i]) {
        if i > 0 {
          assert dropped[i] == s[1..][..|s| - 1 - |t|][i - 1];
        }
      }
    }
  }

  /** TrimEnd removes exactly the trailing white space: a prefix remains. */
  lemma {:induction false} TrimEndIsPrefix(s: string)
    ensures TrimEnd(s) == s[..|TrimEnd(s)|]
    ensures IsBlank(s[|TrimEnd(s)|..])
  {
    if s != [] && IsWhitespace(s[|s| - 1]) {
      var s' := s[..|s| - 1];
      TrimEndIsPrefix(s');
      var t := TrimEnd(s');
      assert s'[..|t|] == s[..|t|];
      var dropped := s[|t|..];
      forall i | 0 <= i < |dropped| ensures IsWhitespace(dropped[i]) {
        if i < |dropped| - 1 {
          assert dropped[i] == s'[|t|..][i];
        }
      }
    }
  }

  /** `s.trim()`: empty exactly when `s` is all white space. */
  function Trim(s: string): (t: string)
    ensures t == [] <==> IsBlank(s)
  {
    TrimEnd(TrimStart(s))
  }

  /** The validation at the start of a submit: a file, and a role that is not blank. */
  function InputsValid(file: Option<UploadFile>, targetRole: string): (ok: bool)
    ensures ok <==> file.Some? && !IsBlank(targetRole)
  {
    file.Some? && Trim(targetRole) != ""
  }

  /**
   * The submit button's enabled test: idle, a file held and a role that is
   * not the empty string. It checks the raw role, so it accepts every input
   * that passes validation and, besides those, only non-empty blank roles.
   */
  function SubmitEnabled(isAnalyzing: bool, file: Option<UploadFile>, targetRole: string): (enabled: bool)
    ensures enabled ==> !isAnalyzing && file.Some?
    ensures !isAnalyzing && InputsValid(file, targetRole) ==> enabled
    ensures enabled && !InputsValid(file, targetRole) ==> targetRole != "" && IsBlank(targetRole)
    ensures !isAnalyzing && file.Some? && targetRole != "" ==> enabled
  {
    !isAnalyzing && file.Some? && targetRole != ""
  }

  /**
   * The two tests differ: a blank but non-empty role enables the button, and
   * the submit it triggers then fails validation.
   */
  lemma BlankRoleEnablesButFailsValidation(file: UploadFile, targetRole: string)
    requires targetRole != ""
    requires IsBlank(targetRole)
    ensures SubmitEnabled(false, Some(file), targetRole)
    ensures !InputsValid(Some(file), targetRole)
  {
  }

  // ---------------------------------------------------------------------------
  // Errors and the loading progression
  // ---------------------------------------------------------------------------

  /** The message the catch block stores: an `Error`'s own message, or the generic fallback. */
  function ErrorMessage(thrown: Thrown): (message: string)
    ensures thrown.Error? ==> message == thrown.message
    ensures thrown.NonError? ==> message == UNEXPECTED_FAILURE && message != ""
  {
    match thrown
    case Error(message) => message
    case NonError => UNEXPECTED_FAILURE
  }

  /**
   * The slots (analysis, error) a settled analysis leaves: the result and no
   * error, or no result and the failure's message; never both, never neither.
   */
  function Resolution(outcome: Result<AnalysisResult, Thrown>): (slots: (Option<AnalysisResult>, Option<string>))
    ensures slots.0.Some? <==> slots.1 == None
    ensures slots.0.Some? <==> outcome.Ok?
    ensures outcome.Ok? ==> slots.0.value == outcome.value
    ensures outcome.Err? ==> slots.1.value == ErrorMessage(outcome.error)
  {
    match outcome
    case Ok(result) => (Some(result), None)
    case Err(thrown) => (None, Some(ErrorMessage(thrown)))
  }

  /** The interval's updater: one step further, frozen at the last caption. */
  function NextLoadingStep(prev: int): (next: int)
    ensures 0 <= prev < LOADING_STEP_COUNT ==> prev <= next < LOADING_STEP_COUNT
    ensures next == prev <==> prev >= LOADING_STEP_COUNT - 1
    ensures next != prev ==> next == prev + 1
  {
    if prev < LOADING_STEP_COUNT - 1 then prev + 1 else prev
  }

  /** The step after `ticks` firings of the interval starting from `step`. */
  function StepAfterTicks(step: int, ticks: nat): int
    decreases ticks
  {
    if ticks == 0 then step else StepAfterTicks(NextLoadingStep(step), ticks - 1)
  }

  /** From any valid step, `ticks` firings advance by `ticks`, clamped at the last step. */
  lemma {:induction false} StepAfterTicksClamps(step: int, ticks: nat)
    requires 0 <= step < LOADING_STEP_COUNT
    ensures StepAfterTicks(step, ticks) ==
      if step + ticks < LOADING_STEP_COUNT then step + ticks else LOADING_STEP_COUNT - 1
    decreases ticks
  {
    if ticks > 0 {
      StepAfterTicksClamps(NextLoadingStep(step), ticks - 1);
    }
  }

  /** The progress bar width in percent. */
  function ProgressWidth(step: int): (width: int)
    requires 0 <= step < LOADING_STEP_COUNT
    ensures 20 <= width <= 100
    ensures width == 100 <==> step == LOADING_STEP_COUNT - 1
  {
    (step + 1) * 20
  }

  /** The caption for a step; every reachable step has one. */
  function LoadingMessage(step: int): (message: string)
    requires 0 <= step < LOADING_STEP_COUNT
    ensures message in LOADING_MESSAGES && message != ""
  {
    LOADING_MESSAGES[step]
  }

  /** Each step has its own caption, so every advance of the step changes the text shown. */
  lemma LoadingMessagesDistinct(i: int, j: int)
    requires 0 <= i < LOADING_STEP_COUNT && 0 <= j < LOADING_STEP_COUNT
    ensures LoadingMessage(i) == LoadingMessage(j) <==> i == j
  {
  }

  // ---------------------------------------------------------------------------
  // Critical gaps
  // ---------------------------------------------------------------------------

  const MAX_GAPS_SHOWN: nat := 4

  predicate IsGap(skill: SkillPoint)
  {
    skill.currentProficiency < skill.requiredProficiency
  }

  /** The gap size shown for a skill. */
  function GapSize(skill: SkillPoint): int
  {
    skill.requiredProficiency - skill.currentProficiency
  }

  /** `skills.filter(...)`: the skills below the required level, in order. */
  function Gaps(skills: seq<SkillPoint>): (gaps: seq<SkillPoint>)
    ensures |gaps| <= |skills|
    ensures forall i :: 0 <= i < |gaps| ==> IsGap(gaps[i])
    ensures forall s :: s in gaps <==> s in skills && IsGap(s)
  {
    if skills == [] then []
    else (if IsGap(skills[0]) then [skills[0]] else []) + Gaps(skills[1..])
  }

  /** Filtering keeps order: the gaps of a concatenation are the concatenated gaps. */
  lemma {:induction false} GapsAppend(a: seq<SkillPoint>, b: seq<SkillPoint>)
    ensures Gaps(a + b) == Gaps(a) + Gaps(b)
  {
    if a == [] {
      assert a + b == b;
    } else {
      var head := if IsGap(a[0]) then [a[0]] else [];
      assert (a + b)[0] == a[0];
      assert (a + b)[1..] == a[1..] + b;
      GapsAppend(a[1..], b);
      calc {
        Gaps(a + b);
        head + Gaps(a[1..] + b);
        head + (Gaps(a[1..]) + Gaps(b));
        (head + Gaps(a[1..])) + Gaps(b);
        Gaps(a) + Gaps(b);
      }
    }
  }

  /**
   * The critical-gaps list: the first four gaps in original order, each with
   * a strictly positive gap size.
   */
  function CriticalGaps(skills: seq<SkillPoint>): (shown: seq<SkillPoint>)
    ensures |shown| == if |Gaps(skills)| < MAX_GAPS_SHOWN then |Gaps(skills)| else MAX_GAPS_SHOWN
    ensures shown == Gaps(skills)[..|shown|]
    ensures forall i :: 0 <= i < |shown| ==> GapSize(shown[i]) > 0
  {
    var gaps := Gaps(skills);
    if |gaps| < MAX_GAPS_SHOWN then gaps else gaps[..MAX_GAPS_SHOWN]
  }

  /**
   * Skills (required 80, current 20), (90, 85) and (60, 10): all three are
   * below the required level, so all three are shown, in order.
   */
  lemma CriticalGapsOfThreeSkills(a: SkillPoint, b: SkillPoint, c: SkillPoint)
    requires a.requiredProficiency == 80 && a.currentProficiency == 20
    requires b.requiredProficiency == 90 && b.currentProficiency == 85
    requires c.requiredProficiency == 60 && c.currentProficiency == 10
    ensures CriticalGaps([a, b, c]) == [a, b, c]
  {
    assert [a, b, c][1..] == [b, c];
    assert [b, c][1..] == [c];
    assert [c][1..] == [];
    assert Gaps([c]) == [c];
    assert Gaps([b, c]) == [b, c];
    assert Gaps([a, b, c]) == [a, b, c];
  }

  // ---------------------------------------------------------------------------
  // The session
  // ---------------------------------------------------------------------------

  class Session {
    var fileState: FileUploadState
    var targetRole: string
    var isAnalyzing: bool
    var loadingStep: int
    var analysis: Option<AnalysisResult>
    var error: Option<string>

    /**
     * The step always names a caption; no result is held while a request is
     * in flight; a preview URL exists only with a file; and the held file is
     * a PDF upload or the built-in sample.
     */
    ghost predicate Valid()
      reads this
    {
      && 0 <= loadingStep < LOADING_STEP_COUNT
      && (isAnalyzing ==> analysis == None)
      && (fileState.file.None? ==> fileState.previewUrl.None?)
      && (fileState.file.Some? ==> fileState.file.value.fileType == PDF_TYPE || fileState.file.value == SAMPLE_FILE)
    }

    constructor ()
      ensures Valid()
      ensures fileState == FileUploadState(None, None) && targetRole == ""
      ensures !isAnalyzing && loadingStep == 0 && analysis == None && error == None
    {
      fileState := FileUploadState(None, None);
      targetRole := "";
      isAnalyzing := false;
      loadingStep := 0;
      analysis := None;
      error := None;
    }

    /** The results section is shown once a result is held and nothing is in flight. */
    function ResultsVisible(): (visible: bool)
      reads this
      ensures visible ==> analysis.Some?
      ensures isAnalyzing ==> !visible
      ensures analysis.Some? && !isAnalyzing ==> visible
    {
      analysis.Some? && !isAnalyzing
    }

    /**
     * The interview-preparation section lives inside the results section and
     * is left out entirely when the question list is empty.
     */
    function InterviewPrepVisible(): (shown: bool)
      reads this
      ensures shown <==> analysis.Some? && !isAnalyzing && analysis.value.interviewPrep != []
      ensures shown ==> ResultsVisible()
    {
      ResultsVisible() && |analysis.value.interviewPrep| > 0
    }

    /**
     * The error banner is shown for a held message that is not empty; an
     * empty message is falsy and hides the banner.
     */
    function ErrorVisible(): (shown: bool)
      reads this
      ensures shown ==> error.Some?
      ensures error == Some("") ==> !shown
      ensures error.Some? && |error.value| > 0 ==> shown
    {
      error.Some? && error.value != ""
    }

    /** Typing in the role field. */
    method SetTargetRole(role: string)
      requires Valid()
      modifies this`targetRole
      ensures Valid() && targetRole == role
    {
      targetRole := role;
    }

    /**
     * `handleFileChange`: no file in the event changes nothing; a file that is
     * not a PDF only sets the error; a PDF replaces the upload slot (with the
     * object URL made for it) and clears the error.
     */
    method HandleFileChange(selected: Option<UploadFile>, objectUrl: string)
      requires Valid()
      modifies this`fileState, this`error
      ensures Valid()
      ensures selected == None ==> fileState == old(fileState) && error == old(error)
      ensures selected.Some? && selected.value.fileType != PDF_TYPE ==>
        fileState == old(fileState) && error == Some(INVALID_PDF) && ErrorVisible()
      ensures selected.Some? && selected.value.fileType == PDF_TYPE ==>
        fileState == FileUploadState(selected, Some(objectUrl)) && error == None
    {
      if selected.Some? {
        var file := selected.value;
        if file.fileType != PDF_TYPE {
          error := Some(INVALID_PDF);
          return;
        }
        fileState := FileUploadState(Some(file), Some(objectUrl));
        error := None;
      }
    }

    /**
     * `loadSampleData`: the built-in text sample with no preview, the fixed
     * role, and no error; the analysis slots are untouched.
     */
    method LoadSampleData()
      requires Valid()
      modifies this`fileState, this`targetRole, this`error
      ensures Valid()
      ensures fileState == FileUploadState(Some(SAMPLE_FILE), None)
      ensures targetRole == SAMPLE_ROLE && error == None
      ensures InputsValid(fileState.file, targetRole)
    {
      fileState := FileUploadState(Some(SAMPLE_FILE), None);
      targetRole := SAMPLE_ROLE;
      error := None;
      assert !IsWhitespace(targetRole[0]);
    }

    /**
     * The synchronous part of `handleAnalyze`: validation, then (if it
     * passes) the in-flight state. Turning `isAnalyzing` on restarts the
     * loading progression at step 0; when it was already on, the running
     * progression continues.
     */
    method StartAnalysis() returns (started: bool)
      requires Valid()
      modifies this`isAnalyzing, this`analysis, this`error, this`loadingStep
      ensures Valid()
      ensures started == InputsValid(fileState.file, targetRole)
      ensures !started ==>
        error == Some(MISSING_INPUT) && ErrorVisible() && isAnalyzing == old(isAnalyzing) &&
        analysis == old(analysis) && loadingStep == old(loadingStep)
      ensures started ==>
        isAnalyzing && analysis == None && error == None &&
        loadingStep == (if old(isAnalyzing) then old(loadingStep) else 0)
    {
      started := InputsValid(fileState.file, targetRole);
      if !started {
        error := Some(MISSING_INPUT);
        return;
      }
      if !isAnalyzing {
        loadingStep := 0;
      }
      isAnalyzing := true;
      analysis := None;
      error := None;
    }

    /** One firing of the loading interval, which exists only while analysing. */
    method Tick()
      requires Valid()
      modifies this`loadingStep
      ensures Valid()
      ensures loadingStep == if isAnalyzing then NextLoadingStep(old(loadingStep)) else old(loadingStep)
      ensures isAnalyzing && old(loadingStep) < LOADING_STEP_COUNT - 1 ==>
        LoadingMessage(loadingStep) != LoadingMessage(old(loadingStep))
    {
      if isAnalyzing {
        var before := loadingStep;
        loadingStep := NextLoadingStep(loadingStep);
        LoadingMessagesDistinct(before, loadingStep);
      }
    }

    /** The loading interval firing `ticks` times while a request is in flight. */
    method WaitTicks(ticks: nat)
      requires Valid()
      modifies this`loadingStep
      ensures Valid()
      ensures loadingStep == if isAnalyzing then StepAfterTicks(old(loadingStep), ticks) else old(loadingStep)
    {
      var i := 0;
      while i < ticks
        invariant 0 <= i <= ticks && Valid()
        invariant isAnalyzing ==> StepAfterTicks(loadingStep, ticks - i) == StepAfterTicks(old(loadingStep), ticks)
        invariant !isAnalyzing ==> loadingStep == old(loadingStep)
      {
        Tick();
        i := i + 1;
      }
    }

    /**
     * The settlement of `handleAnalyze`: the result is stored, or the
     * failure's message; either way the request is no longer in flight.
     * Storing a result leaves the error slot as it is.
     */
    method FinishAnalysis(outcome: Result<AnalysisResult, Thrown>)
      requires Valid()
      modifies this`isAnalyzing, this`analysis, this`error
      ensures Valid() && !isAnalyzing
      ensures outcome.Ok? ==> analysis == Some(outcome.value) && error == old(error)
      ensures outcome.Err? ==> analysis == old(analysis) && error == Some(ErrorMessage(outcome.error))
    {
      match outcome {
        case Ok(result) =>
          analysis := Some(result);
        case Err(thrown) =>
          error := Some(ErrorMessage(thrown));
      }
      isAnalyzing := false;
    }

    /**
     * The awaited call and the settlement: the request `analyzeResume` sends
     * for the held file and role, and the slots its outcome leaves.
     */
    method AwaitAnalysis(apiKey: Option<string>, reader: GeminiService.ReadMode -> GeminiService.ReadOutcome,
                         service: GeminiService.Request -> GeminiService.ServiceReply,
                         parse: string -> Option<AnalysisResult>)
      returns (sent: Option<GeminiService.Request>)
      requires Valid() && fileState.file.Some? && analysis == None && error == None
      modifies this`isAnalyzing, this`analysis, this`error
      ensures Valid() && !isAnalyzing
      ensures
        var (outcome, request) := GeminiService.Analysis(apiKey, fileState.file.value, targetRole, reader, service, parse);
        sent == request && (analysis, error) == Resolution(outcome)
    {
      var outcome;
      outcome, sent := GeminiService.AnalyzeResume(apiKey, fileState.file.value, targetRole, reader, service, parse);
      FinishAnalysis(outcome);
    }

    /**
     * `handleAnalyze` from submit to settlement, with the loading interval
     * firing `ticks` times while the request is in flight. An invalid submit
     * only sets the validation error; a valid one sends the request that
     * `analyzeResume` builds from the held file and the raw role, and ends
     * holding exactly one of the result or the failure's message.
     */
    method HandleAnalyze(apiKey: Option<string>, reader: GeminiService.ReadMode -> GeminiService.ReadOutcome,
                         service: GeminiService.Request -> GeminiService.ServiceReply,
                         parse: string -> Option<AnalysisResult>, ticks: nat)
      returns (sent: Option<GeminiService.Request>)
      requires Valid()
      modifies this`isAnalyzing, this`analysis, this`error, this`loadingStep
      ensures Valid()
      ensures !InputsValid(fileState.file, targetRole) ==>
        sent == None && error == Some(MISSING_INPUT) && isAnalyzing == old(isAnalyzing) &&
        analysis == old(analysis) && loadingStep == old(loadingStep)
      ensures InputsValid(fileState.file, targetRole) ==>
        var (outcome, request) := GeminiService.Analysis(apiKey, fileState.file.value, targetRole, reader, service, parse);
        && sent == request
        && !isAnalyzing
        && (analysis, error) == Resolution(outcome)
        && (ResultsVisible() <==> outcome.Ok?)
        && loadingStep == StepAfterTicks(if old(isAnalyzing) then old(loadingStep) else 0, ticks)
    {
      var started := StartAnalysis();
      if !started {
        return None;
      }
      WaitTicks(ticks);
      sent := AwaitAnalysis(apiKey, reader, service, parse);
    }

    /**
     * Clicking the submit button: a disabled button (while analysing, with
     * no file, or with an empty role) does nothing, so at most one request
     * is ever in flight.
     */
    method ClickSubmit(apiKey: Option<string>, reader: GeminiService.ReadMode -> GeminiService.ReadOutcome,
                       service: GeminiService.Request -> GeminiService.ServiceReply,
                       parse: string -> Option<AnalysisResult>, ticks: nat)
      returns (sent: Option<GeminiService.Request>)
      requires Valid()
      modifies this`isAnalyzing, this`analysis, this`error, this`loadingStep
      ensures Valid()
      ensures !SubmitEnabled(old(isAnalyzing), fileState.file, targetRole) ==>
        sent == None && unchanged(this)
      ensures SubmitEnabled(old(isAnalyzing), fileState.file, targetRole) && InputsValid(fileState.file, targetRole) ==>
        var (outcome, request) := GeminiService.Analysis(apiKey, fileState.file.value, targetRole, reader, service, parse);
        sent == request && !isAnalyzing && (analysis, error) == Resolution(outcome) &&
        loadingStep == StepAfterTicks(0, ticks)
      ensures SubmitEnabled(old(isAnalyzing), fileState.file, targetRole) && !InputsValid(fileState.file, targetRole) ==>
        sent == None && error == Some(MISSING_INPUT) && !isAnalyzing && analysis == old(analysis) &&
        loadingStep == old(loadingStep)
    {
      if SubmitEnabled(isAnalyzing, fileState.file, targetRole) {
        sent := HandleAnalyze(apiKey, reader, service, parse, ticks);
      } else {
        sent := None;
      }
    }
  }
}
