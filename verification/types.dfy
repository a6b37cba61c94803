/**
 * The record shapes of the analyzer: what the AI service returns, the
 * uploaded file, and the values the program throws.
 */
module Types {
  import opened Wrappers

  datatype SkillCategory = Technical | Soft | Domain

  /** One comparison axis between the candidate and the role. */
  datatype SkillPoint = SkillPoint(
    skillName: string,
    category: SkillCategory,
    currentProficiency: int,
    requiredProficiency: int,
    gapReason: string)

  /** One recommended remediation step. */
  datatype ActionItem = ActionItem(
    title: string,
    description: string,
    projectPrompt: string,
    estimatedTime: string,
    learningResourceQuery: string)

  datatype InterviewQuestion = InterviewQuestion(question: string, expectedKeyPoints: string)

  /**
   * The parsed reply of the service. Nothing checks the ranges the schema
   * describes (scores 0..100, non-empty lists): every field is taken as sent.
   */
  datatype AnalysisResult = AnalysisResult(
    matchScore: int,
    summary: string,
    skills: seq<SkillPoint>,
    actionPlan: seq<ActionItem>,
    interviewPrep: seq<InterviewQuestion>)

  /**
   * A browser `File`: its name, its declared content type and its contents.
   * The contents are what a successful text read yields.
   */
  datatype UploadFile = UploadFile(name: string, fileType: string, body: string)

  /** The upload slot of the page: the chosen file and its preview URL. */
  datatype FileUploadState = FileUploadState(file: Option<UploadFile>, previewUrl: Option<string>)

  /**
   * A thrown value. `Error` is an instance of JavaScript's `Error` carrying a
   * message; `NonError` is anything else (such as the progress event a
   * failing file reader rejects with), which carries no message.
   */
  datatype Thrown = Error(message: string) | NonError

  const PDF_TYPE: string := "application/pdf"
}
