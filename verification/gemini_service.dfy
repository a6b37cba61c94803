/**
 * The analysis client: turns an uploaded file into a request payload, builds
 * the content parts and the instruction prompt, and interprets the reply of
 * the generative service through its ladder of named failures.
 *
 * The browser file reader, the service call and JSON parsing are not modelled
 * here; they enter as function parameters (oracles) whose results the model
 * takes as given.
 */
module GeminiService {
  import opened Wrappers
  import opened Types

  const MODEL: string := "gemini-2.5-flash"

  const MISSING_KEY: string := "API Key is missing"
  const PDF_READ_FAILED: string := "Failed to read PDF file"
  const TEXT_READ_FAILED: string := "Failed to read text file"
  const NO_RESPONSE: string := "No response received from Gemini"
  const PARSE_FAILED: string := "Failed to process analysis results"

  // ---------------------------------------------------------------------------
  // Splitting a data URL
  // ---------------------------------------------------------------------------

  /** JavaScript's `s.split(sep)` for a one-character separator. */
  function Split(s: string, sep: char): (pieces: seq<string>)
    ensures |pieces| >= 1
    ensures |pieces| == 1 <==> sep !in s
    ensures forall i :: 0 <= i < |pieces| ==> sep !in pieces[i]
  {
    if s == [] then [""]
    else
      var rest := Split(s[1..], sep);
      if s[0] == sep then [""] + rest
      else [[s[0]] + rest[0]] + rest[1..]
  }

  /** JavaScript's `pieces.join(sep)`: the inverse of `Split`. */
  function Join(pieces: seq<string>, sep: char): string
    requires |pieces| >= 1
  {
    if |pieces| == 1 then pieces[0] else pieces[0] + [sep] + Join(pieces[1..], sep)
  }

  /** Joining the pieces of a split gives back the original string. */
  lemma {:induction false} JoinSplit(s: string, sep: char)
    ensures Join(Split(s, sep), sep) == s
  {
    if s != [] {
      JoinSplit(s[1..], sep);
      var rest := Split(s[1..], sep);
      if s[0] == sep {
        assert Split(s, sep) == [""] + rest;
        assert Join(Split(s, sep), sep) == "" + [sep] + Join(rest, sep);
      } else {
        var pieces := Split(s, sep);
        assert pieces == [[s[0]] + rest[0]] + rest[1..];
        if |rest| == 1 {
          assert Join(pieces, sep) == [s[0]] + rest[0];
        } else {
          assert pieces[1..] == rest[1..];
          assert Join(rest, sep) == rest[0] + [sep] + Join(rest[1..], sep);
          assert Join(pieces, sep) == [s[0]] + rest[0] + [sep] + Join(rest[1..], sep);
        }
      }
    }
  }

  /** A string without the separator splits into itself alone. */
  lemma {:induction false} SplitWithoutSeparator(s: string, sep: char)
    requires sep !in s
    ensures Split(s, sep) == [s]
  {
    if s != [] {
      SplitWithoutSeparator(s[1..], sep);
      assert [s[0]] + s[1..] == s;
    }
  }

  /** The first piece ends at the first separator; the rest splits on its own. */
  lemma {:induction false} SplitAtFirstSeparator(p: string, sep: char, q: string)
    requires sep !in p
    ensures Split(p + [sep] + q, sep) == [p] + Split(q, sep)
  {
    if p == [] {
      assert p + [sep] + q == [sep] + q;
      assert ([sep] + q)[1..] == q;
    } else {
      SplitAtFirstSeparator(p[1..], sep, q);
      assert (p + [sep] + q)[1..] == p[1..] + [sep] + q;
      assert [p[0]] + p[1..] == p;
    }
  }

  /** Splitting a join of separator-free pieces gives back the pieces. */
  lemma {:induction false} SplitJoin(pieces: seq<string>, sep: char)
    requires |pieces| >= 1
    requires forall i :: 0 <= i < |pieces| ==> sep !in pieces[i]
    ensures Split(Join(pieces, sep), sep) == pieces
  {
    if |pieces| == 1 {
      SplitWithoutSeparator(pieces[0], sep);
    } else {
      SplitJoin(pieces[1..], sep);
      SplitAtFirstSeparator(pieces[0], sep, Join(pieces[1..], sep));
      assert [pieces[0]] + pieces[1..] == pieces;
    }
  }

  /**
   * `dataUrl.split(',')[1]`: the segment between the first comma and the next
   * one (or the end); `undefined` (None) when the string has no comma.
   */
  function DataUrlPayload(dataUrl: string): (data: Option<string>)
    ensures data.Some? <==> ',' in dataUrl
    ensures data.Some? ==> ',' !in data.value
  {
    var pieces := Split(dataUrl, ',');
    if |pieces| > 1 then Some(pieces[1]) else None
  }

  /** The payload is what follows the first comma, up to the next comma. */
  lemma PayloadAfterFirstComma(prefix: string, rest: string)
    requires ',' !in prefix
    ensures DataUrlPayload(prefix + "," + rest) == Some(Split(rest, ',')[0])
  {
    SplitAtFirstSeparator(prefix, ',', rest);
  }

  /** For `prefix,payload` with a comma-free payload the data is the payload. */
  lemma PayloadOfPrefixedData(prefix: string, payload: string)
    requires ',' !in prefix && ',' !in payload
    ensures DataUrlPayload(prefix + "," + payload) == Some(payload)
  {
    PayloadAfterFirstComma(prefix, payload);
    SplitWithoutSeparator(payload, ',');
  }

  /**
   * A base64 data URL as section 3 of RFC 2397 lays it out:
   * `data:<mediatype>;base64,<data>`.
   */
  function Base64DataUrl(mediaType: string, base64: string): string
  {
    "data:" + mediaType + ";base64," + base64
  }

  /** The payload of a base64 data URL is exactly its base64 data. */
  lemma PayloadStripsDataUrlPrefix(mediaType: string, base64: string)
    requires ',' !in mediaType && ',' !in base64
    ensures DataUrlPayload(Base64DataUrl(mediaType, base64)) == Some(base64)
  {
    var prefix := "data:" + mediaType + ";base64";
    assert Base64DataUrl(mediaType, base64) == prefix + "," + base64;
    assert forall i :: 0 <= i < |prefix| ==> prefix[i] != ',' by {
      forall i | 0 <= i < |prefix| ensures prefix[i] != ',' {
        if 5 <= i < 5 + |mediaType| {
          assert prefix[i] == mediaType[i - 5];
        }
      }
    }
    PayloadOfPrefixedData(prefix, base64);
  }

  // ---------------------------------------------------------------------------
  // Reading the file
  // ---------------------------------------------------------------------------

  /** How the file reader is asked to read: `readAsDataURL` or `readAsText`. */
  datatype ReadMode = AsDataUrl | AsText

  /**
   * What a file read ends with: a string result, a result that is not a
   * string, or a read error (the reader rejects with its error event).
   */
  datatype ReadOutcome = Loaded(result: string) | NotAString | ReadFailed

  /** The document part: inline data with a MIME tag, or literal text. */
  datatype FilePart = InlineFile(data: Option<string>, mimeType: string) | TextFile(text: string)

  /** The read mode the encoder chooses for a file. */
  function ReadModeFor(file: UploadFile): ReadMode
  {
    if file.fileType == PDF_TYPE then AsDataUrl else AsText
  }

  /**
   * `fileToGenerativePart`: a PDF is read as a data URL and its prefix split
   * off; any other file is read as text and passed through verbatim. The
   * reader's error event (not an `Error` instance) wins over the
   * end-of-read callback, which fires after it.
   */
  function FileToGenerativePart(file: UploadFile, reader: ReadMode -> ReadOutcome): (r: Result<FilePart, Thrown>)
    ensures r.Ok? <==> reader(ReadModeFor(file)).Loaded?
    ensures file.fileType == PDF_TYPE && r.Ok? ==>
      r.value == InlineFile(DataUrlPayload(reader(AsDataUrl).result), PDF_TYPE)
    ensures file.fileType != PDF_TYPE && r.Ok? ==> r.value == TextFile(reader(AsText).result)
    ensures reader(ReadModeFor(file)) == NotAString ==>
      r == Err(Error(if file.fileType == PDF_TYPE then PDF_READ_FAILED else TEXT_READ_FAILED))
    ensures reader(ReadModeFor(file)) == ReadFailed ==> r == Err(NonError)
  {
    if file.fileType == PDF_TYPE then
      match reader(AsDataUrl)
      case Loaded(s) => Ok(InlineFile(DataUrlPayload(s), PDF_TYPE))
      case NotAString => Err(Error(PDF_READ_FAILED))
      case ReadFailed => Err(NonError)
    else
      match reader(AsText)
      case Loaded(s) => Ok(TextFile(s))
      case NotAString => Err(Error(TEXT_READ_FAILED))
      case ReadFailed => Err(NonError)
  }

  /** A text file whose read returns its contents is sent as those contents. */
  lemma TextPayloadIsVerbatim(file: UploadFile, reader: ReadMode -> ReadOutcome)
    requires file.fileType != PDF_TYPE
    requires reader(AsText) == Loaded(file.body)
    ensures FileToGenerativePart(file, reader) == Ok(TextFile(file.body))
  {
  }

  // ---------------------------------------------------------------------------
  // The request
  // ---------------------------------------------------------------------------

  const PROMPT_HEAD: string :=
    "\n    You are a Senior Technical Recruiter and Career Strategist at a FAANG company. \n"
    + "    Analyze the provided resume against the target role: "

  const PROMPT_TAIL: string :=
    ".\n    \n"
    + "    1. **Deep Semantic Match**: Look beyond keywords. If the role asks for \"Kubernetes\" and the resume shows \"Container Orchestration at scale\", that is a match.\n"
    + "    2. **Gap Analysis**: Identify where the candidate falls short specifically for *this* level of role.\n"
    + "    3. **Interview Prep**: Based *only* on the identified gaps, generate tough interview questions they are likely to face.\n"
    + "    4. **Action Plan**: Provide concrete steps and a search query for learning resources.\n"
    + "\n"
    + "    Provide a strict JSON response adhering to the schema.\n  "

  /** The instruction prompt for a target role. */
  function Prompt(targetRole: string): (prompt: string)
    ensures PROMPT_HEAD <= prompt
    ensures |prompt| > |targetRole| + 2
  {
    PROMPT_HEAD + "\"" + targetRole + "\"" + PROMPT_TAIL
  }

  /** The prompt holds the target role verbatim, in double quotes, after the fixed head. */
  lemma PromptQuotesRole(targetRole: string)
    ensures |Prompt(targetRole)| == |PROMPT_HEAD| + |targetRole| + 2 + |PROMPT_TAIL|
    ensures Prompt(targetRole)[..|PROMPT_HEAD|] == PROMPT_HEAD
    ensures Prompt(targetRole)[|PROMPT_HEAD|..|PROMPT_HEAD| + |targetRole| + 2] == "\"" + targetRole + "\""
    ensures Prompt(targetRole)[|PROMPT_HEAD| + |targetRole| + 2..] == PROMPT_TAIL
  {
  }

  /** Different roles give different prompts: the role can be read back. */
  lemma PromptDeterminesRole(a: string, b: string)
    requires Prompt(a) == Prompt(b)
    ensures a == b
  {
    PromptQuotesRole(a);
    PromptQuotesRole(b);
    assert |a| == |b|;
    assert "\"" + a + "\"" == "\"" + b + "\"";
    assert a == ("\"" + a + "\"")[1..|a| + 1];
  }

  /** One content part of the request. */
  datatype Part = InlineDataPart(data: Option<string>, mimeType: string) | TextPart(text: string)

  const RESUME_HEADING: string := "RESUME CONTENT:\n"

  /**
   * The content parts for a document part and a prompt: inline data then the
   * prompt for a PDF; one part holding the heading, the text and the prompt
   * for non-empty text; nothing at all for empty text (an empty string is
   * falsy in the source's test).
   */
  function ContentParts(fileData: FilePart, prompt: string): (parts: seq<Part>)
    ensures |parts| <= 2
    ensures fileData.InlineFile? ==>
      parts == [InlineDataPart(fileData.data, fileData.mimeType), TextPart(prompt)]
    ensures fileData.TextFile? ==> (parts == [] <==> fileData.text == "")
    ensures fileData.TextFile? && parts != [] ==> |parts| == 1 && parts[0].TextPart?
  {
    match fileData
    case InlineFile(data, mimeType) => [InlineDataPart(data, mimeType), TextPart(prompt)]
    case TextFile(text) =>
      if text != "" then [TextPart(RESUME_HEADING + text + "\n\n" + prompt)] else []
  }

  /**
   * The single text part starts with the heading and the resume text and
   * ends with the prompt.
   */
  lemma TextPartLayout(text: string, prompt: string)
    requires text != ""
    ensures
      var parts := ContentParts(TextFile(text), prompt);
      && |parts| == 1 && parts[0].TextPart?
      && |parts[0].text| == |RESUME_HEADING| + |text| + 2 + |prompt|
      && parts[0].text[..|RESUME_HEADING| + |text|] == RESUME_HEADING + text
      && parts[0].text[|RESUME_HEADING| + |text|..|RESUME_HEADING| + |text| + 2] == "\n\n"
      && parts[0].text[|parts[0].text| - |prompt|..] == prompt
  {
  }

  /** The content-part list, built by pushing onto an initially empty list. */
  method BuildContentParts(fileData: FilePart, prompt: string) returns (parts: seq<Part>)
    ensures parts == ContentParts(fileData, prompt)
  {
    parts := [];
    if fileData.InlineFile? {
      parts := parts + [InlineDataPart(fileData.data, fileData.mimeType)];
      parts := parts + [TextPart(prompt)];
    } else if fileData.text != "" {
      parts := parts + [TextPart(RESUME_HEADING + fileData.text + "\n\n" + prompt)];
    }
  }

  /** The request sent to the service: the model name and the content parts. */
  datatype Request = Request(model: string, parts: seq<Part>)

  /** What the service call gives back: a reply (text or none) or a thrown failure. */
  datatype ServiceReply = Reply(text: Option<string>) | Transport(failure: Thrown)

  predicate MissingKey(apiKey: Option<string>)
  {
    apiKey == None || apiKey == Some("")
  }

  /**
   * The end of the error ladder: a transport failure propagates as thrown, an
   * absent or empty reply text is "no response", text that does not parse is
   * "failed to process", and a parsed value is returned without any check.
   */
  function InterpretReply(reply: ServiceReply, parse: string -> Option<AnalysisResult>): (r: Result<AnalysisResult, Thrown>)
    ensures reply.Transport? ==> r == Err(reply.failure)
    ensures reply.Reply? && (reply.text == None || reply.text == Some("")) ==> r == Err(Error(NO_RESPONSE))
    ensures reply.Reply? && reply.text.Some? && reply.text.value != "" ==>
      (r.Ok? <==> parse(reply.text.value).Some?) &&
      (r.Err? ==> r.error == Error(PARSE_FAILED)) &&
      (r.Ok? ==> parse(reply.text.value) == Some(r.value))
  {
    match reply
    case Transport(failure) => Err(failure)
    case Reply(text) =>
      if text == None || text == Some("") then Err(Error(NO_RESPONSE))
      else
        match parse(text.value)
        case None => Err(Error(PARSE_FAILED))
        case Some(result) => Ok(result)
  }

  /**
   * `analyzeResume` as a value: the outcome, and the request sent (None when
   * the call failed before reaching the service).
   */
  function Analysis(apiKey: Option<string>, file: UploadFile, targetRole: string,
                    reader: ReadMode -> ReadOutcome, service: Request -> ServiceReply,
                    parse: string -> Option<AnalysisResult>): (r: (Result<AnalysisResult, Thrown>, Option<Request>))
    ensures MissingKey(apiKey) ==> r == (Err(Error(MISSING_KEY)), None)
    ensures !MissingKey(apiKey) && FileToGenerativePart(file, reader).Err? ==>
      r == (Err(FileToGenerativePart(file, reader).error), None)
    ensures !MissingKey(apiKey) && FileToGenerativePart(file, reader).Ok? ==>
      r.1 == Some(Request(MODEL, ContentParts(FileToGenerativePart(file, reader).value, Prompt(targetRole)))) &&
      r.0 == InterpretReply(service(r.1.value), parse)
    ensures r.1 == None <==> r.0.Err? && (MissingKey(apiKey) || !reader(ReadModeFor(file)).Loaded?)
  {
    if MissingKey(apiKey) then (Err(Error(MISSING_KEY)), None)
    else
      match FileToGenerativePart(file, reader)
      case Err(e) => (Err(e), None)
      case Ok(fileData) =>
        var request := Request(MODEL, ContentParts(fileData, Prompt(targetRole)));
        (InterpretReply(service(request), parse), Some(request))
  }

  /**
   * `analyzeResume`: the key check, the file read, the content parts pushed
   * one by one, one service call and the reply ladder, with an early exit at
   * each failure.
   */
  method AnalyzeResume(apiKey: Option<string>, file: UploadFile, targetRole: string,
                       reader: ReadMode -> ReadOutcome, service: Request -> ServiceReply,
                       parse: string -> Option<AnalysisResult>)
    returns (outcome: Result<AnalysisResult, Thrown>, sent: Option<Request>)
    ensures (outcome, sent) == Analysis(apiKey, file, targetRole, reader, service, parse)
  {
    if apiKey == None || apiKey.value == "" {
      return Err(Error(MISSING_KEY)), None;
    }
    var fileData := FileToGenerativePart(file, reader);
    if fileData.Err? {
      return Err(fileData.error), None;
    }
    var prompt := Prompt(targetRole);
    var parts := BuildContentParts(fileData.value, prompt);
    var request := Request(MODEL, parts);
    sent := Some(request);
    var response := service(request);
    if response.Transport? {
      return Err(response.failure), sent;
    }
    var text := response.text;
    if text == None || text.value == "" {
      return Err(Error(NO_RESPONSE)), sent;
    }
    match parse(text.value)
    case None =>
      outcome := Err(Error(PARSE_FAILED));
    case Some(result) =>
      outcome := Ok(result);
  }

  /** A PDF request carries exactly the inline data and the prompt, in that order. */
  lemma PdfRequestShape(apiKey: Option<string>, file: UploadFile, targetRole: string, dataUrl: string,
                        reader: ReadMode -> ReadOutcome, service: Request -> ServiceReply,
                        parse: string -> Option<AnalysisResult>)
    requires !MissingKey(apiKey) && file.fileType == PDF_TYPE && reader(AsDataUrl) == Loaded(dataUrl)
    ensures Analysis(apiKey, file, targetRole, reader, service, parse).1 ==
      Some(Request(MODEL, [InlineDataPart(DataUrlPayload(dataUrl), PDF_TYPE), TextPart(Prompt(targetRole))]))
  {
  }
}
