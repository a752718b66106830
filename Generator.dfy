/**
 * The question generator page (src/app/page.tsx): the upload checks, the checks before a
 * generation request, the question-type list, the conversion of the service's answer, and the
 * text the page copies to the clipboard or offers as a CSV download.
 */
module Generator {
  import opened Wrappers
  import opened Seqs
  import opened Strings
  import opened Quiz
  import Api
  import Library

  /** What the page reads from an uploaded `File`. */
  datatype FileInfo = FileInfo(name: string, mime: string, size: nat)

  /** The upload limit, 10 MiB. */
  const MaxUploadBytes: nat := 10 * 1024 * 1024

  const UnsupportedType := "Chỉ hỗ trợ file PDF và TXT"
  const FileTooLarge := "File quá lớn. Kích thước tối đa là 10MB"

  predicate SupportedType(mime: string) {
    Contains(mime, "text") || Contains(mime, "pdf")
  }

  /**
   * `handleFileUpload`'s checks: a file is kept exactly when its type mentions `text` or `pdf`
   * and it is at most 10 MiB; the type is checked first.
   */
  function CheckUpload(f: FileInfo): (r: Result<FileInfo, string>)
    ensures r.Ok? <==> SupportedType(f.mime) && f.size <= MaxUploadBytes
    ensures r.Ok? ==> r.value == f
    ensures !SupportedType(f.mime) ==> r == Err(UnsupportedType)
    ensures SupportedType(f.mime) && f.size > MaxUploadBytes ==> r == Err(FileTooLarge)
  {
    if !SupportedType(f.mime) then Err(UnsupportedType)
    else if f.size > MaxUploadBytes then Err(FileTooLarge)
    else Ok(f)
  }

  /** The generation request the page sends. */
  datatype Request = Request(
    file: FileInfo,
    subject: string,
    questionCount: nat,
    questionTypes: seq<string>,
    tone: string,
    difficulty: string)

  const MissingInput := "Vui lòng tải file và nhập chủ đề"
  const NoQuestionTypes := "Vui lòng chọn ít nhất một loại câu hỏi"

  /**
   * `generateQuestions` before it calls the service: no request without a file and a subject,
   * none without a question type; otherwise the request carries the form's values with each
   * type in the service's spelling.
   */
  function PrepareGeneration(file: Option<FileInfo>, subject: string, questionCount: nat, types: seq<string>, tone: string, difficulty: string): (r: Result<Request, string>)
    ensures file.None? || subject == "" ==> r == Err(MissingInput)
    ensures file.Some? && subject != "" && |types| == 0 ==> r == Err(NoQuestionTypes)
    ensures r.Ok? <==> file.Some? && subject != "" && |types| > 0
    ensures r.Ok? ==>
      && r.value.file == file.value && r.value.subject == subject && r.value.questionCount == questionCount
      && r.value.tone == tone && r.value.difficulty == difficulty
      && |r.value.questionTypes| == |types|
      && forall i :: 0 <= i < |types| ==> r.value.questionTypes[i] == ToApiType(types[i])
  {
    if file.None? || subject == "" then Err(MissingInput)
    else if |types| == 0 then Err(NoQuestionTypes)
    else Ok(Request(file.value, subject, questionCount, seq(|types|, i requires 0 <= i < |types| => ToApiType(types[i])), tone, difficulty))
  }

  /** Every form-side type in a request reads back, through the service's spelling, as itself. */
  lemma RequestTypesRoundTrip(file: Option<FileInfo>, subject: string, questionCount: nat, types: seq<string>, tone: string, difficulty: string)
    requires forall i :: 0 <= i < |types| ==> FormSpelling(types[i])
    ensures var r := PrepareGeneration(file, subject, questionCount, types, tone, difficulty);
      r.Ok? ==> forall i :: 0 <= i < |types| ==> NormalizeType(r.value.questionTypes[i]) == types[i]
  {
    forall i | 0 <= i < |types| ensures NormalizeType(ToApiType(types[i])) == types[i] {
      TypeRoundTrip(types[i]);
    }
  }

  /** `response?.data?.questions?.map(...) || []`: no question list gives no questions. */
  function ConvertResponse(data: Option<seq<Api.Question>>): (r: seq<Question>)
    ensures data.None? ==> r == []
    ensures data.Some? ==> |r| == |data.value|
  {
    match data
    case None => []
    case Some(qs) => ToPractice(qs)
  }

  /** The generator converts a question list exactly as the library does before practice. */
  lemma SameConversionAsLibrary(qs: Api.QuestionSet)
    requires |qs.questions| > 0
    ensures Library.StartPractice(Library.Delivered(qs)) == Ok(ConvertResponse(Some(qs.questions)))
  {
  }

  /** Checking a type that was not selected and unchecking it again restores the list. */
  lemma CheckUncheckRestores(prev: seq<string>, value: string)
    requires value !in prev
    ensures Without(prev + [value], value) == prev
  {
    WithoutAppend(prev, value, value);
    WithoutAbsent(prev, value);
  }

  /** `${correctAnswer}`: an array is written with its elements separated by commas. */
  function AnswerText(a: Answer): string {
    match a
    case Single(t) => t
    case Multiple(ts) => Join(ts, ",")
  }

  function OptionLine(i: nat, opt: string): string {
    [OptionLetter(i)] + ". " + opt
  }

  function OptionLines(options: seq<string>): (r: seq<string>)
    ensures |r| == |options| && forall i :: 0 <= i < |options| ==> r[i] == OptionLine(i, options[i])
  {
    seq(|options|, i requires 0 <= i < |options| => OptionLine(i, options[i]))
  }

  /** One question's block of the clipboard text. */
  function ClipboardBlock(q: Question): string {
    Decimal(q.id) + ". " + q.question + "\n" + Join(OptionLines(q.options), "\n") + "\nĐáp án: " + AnswerText(q.correctAnswer) + "\n"
  }

  /** `copyAllQuestions`: the blocks separated by newlines. */
  function ClipboardText(qs: seq<Question>): (r: string)
    ensures qs == [] ==> r == ""
    ensures |qs| == 1 ==> r == ClipboardBlock(qs[0])
  {
    Join(seq(|qs|, i requires 0 <= i < |qs| => ClipboardBlock(qs[i])), "\n")
  }

  /**
   * The lines of one block: the numbered question, one line per option (one empty line when
   * there is none), the answer line, and the empty line the block's final newline opens.
   */
  function BlockLines(q: Question): (r: seq<string>)
    ensures |r| >= 3
  {
    var optionPart := if q.options == [] then [""] else OptionLines(q.options);
    [Decimal(q.id) + ". " + q.question] + optionPart + ["Đáp án: " + AnswerText(q.correctAnswer), ""]
  }

  /** A block is its lines joined with newlines. */
  lemma BlockIsItsLines(q: Question)
    ensures ClipboardBlock(q) == Join(BlockLines(q), "\n")
  {
    var header := Decimal(q.id) + ". " + q.question;
    var optionPart := if q.options == [] then [""] else OptionLines(q.options);
    var lead, a, nl := "Đáp án: ", AnswerText(q.correctAnswer), "\n";
    var answer := lead + a;
    var tail := [answer, ""];
    var opts := Join(OptionLines(q.options), nl);
    assert Join(optionPart, nl) == opts;
    assert Join(tail, nl) == answer + nl by {
      assert Join(tail, nl) == answer + nl + "";
    }
    JoinAppend(optionPart, tail, nl);
    JoinAppend([header], optionPart + tail, nl);
    assert BlockLines(q) == [header] + (optionPart + tail);
    var h, s := header + nl, "\nĐáp án: ";
    assert Join(BlockLines(q), nl) == h + ((opts + nl) + (answer + nl));
    // Rebracket the joined lines into the block's left-to-right concatenation.
    assert nl + lead == s;
    ConcatAssoc(opts, nl, lead);
    ConcatAssoc(opts + nl, lead, a);
    ConcatAssoc(opts + nl, answer, nl);
    assert (opts + nl) + (answer + nl) == ((opts + s) + a) + nl;
    ConcatAssoc(h, (opts + s) + a, nl);
    ConcatAssoc(h, opts + s, a);
    ConcatAssoc(h, opts, s);
    assert ClipboardBlock(q) == (((h + opts) + s) + a) + nl;
  }

  /** Neither the question, nor an option, nor the answer contains a newline, and option letters stay below U+FFFF. */
  predicate SingleLineTexts(q: Question) {
    && '\n' !in q.question
    && (forall j :: 0 <= j < |q.options| ==> '\n' !in q.options[j])
    && '\n' !in AnswerText(q.correctAnswer)
    && |q.options| < 0x1_0000 - 65
  }

  lemma BlockLinesSingle(q: Question)
    requires SingleLineTexts(q)
    ensures forall k :: 0 <= k < |BlockLines(q)| ==> '\n' !in BlockLines(q)[k]
  {
    var header := Decimal(q.id) + ". " + q.question;
    assert '\n' !in header by {
      var d := Decimal(q.id);
      forall k | 0 <= k < |header| ensures header[k] != '\n' {
        if k < |d| {
          assert IsDigit(d[k]);
        }
      }
    }
    forall j | 0 <= j < |q.options| ensures '\n' !in OptionLine(j, q.options[j]) {
      var line := OptionLine(j, q.options[j]);
      forall k | 0 <= k < |line| ensures line[k] != '\n' {
        if k == 0 {
          assert line[0] == OptionLetter(j);
        } else if k >= 3 {
          assert line[k] == q.options[j][k - 3];
        }
      }
    }
    var tail := "Đáp án: " + AnswerText(q.correctAnswer);
    forall k | 0 <= k < |tail| ensures tail[k] != '\n' {
      if k >= |"Đáp án: "| {
        assert tail[k] == AnswerText(q.correctAnswer)[k - |"Đáp án: "|];
      }
    }
  }

  /**
   * Splitting the clipboard text at newlines gives, block after block, the numbered question,
   * the lettered options and the answer, each block followed by an empty line.
   */
  lemma ClipboardLines(qs: seq<Question>)
    requires |qs| >= 1
    requires forall i :: 0 <= i < |qs| ==> SingleLineTexts(qs[i])
    ensures Split(ClipboardText(qs), "\n") == Flatten(seq(|qs|, i requires 0 <= i < |qs| => BlockLines(qs[i])))
  {
    var ms := seq(|qs|, i requires 0 <= i < |qs| => BlockLines(qs[i]));
    forall i | 0 <= i < |qs| ensures ClipboardBlock(qs[i]) == Join(ms[i], "\n") {
      BlockIsItsLines(qs[i]);
    }
    assert seq(|qs|, i requires 0 <= i < |qs| => ClipboardBlock(qs[i])) == JoinEach(ms, "\n");
    JoinFlatten(ms, "\n");
    var lines := Flatten(ms);
    forall k | 0 <= k < |lines| ensures '\n' !in lines[k] {
      FlattenMembers(ms, lines[k]);
      var i :| 0 <= i < |ms| && lines[k] in ms[i];
      BlockLinesSingle(qs[i]);
    }
    SplitJoin(lines, '\n');
  }

  /** The CSV header row. */
  const CsvHeader: seq<string> := ["STT", "Câu hỏi", "Đáp án A", "Đáp án B", "Đáp án C", "Đáp án D", "Đáp án đúng", "Giải thích"]

  /** `options[i] || ''`. */
  function OptionOrEmpty(options: seq<string>, i: nat): string {
    if i < |options| then options[i] else ""
  }

  /** One question's eight cells. */
  function CsvCells(q: Question): (r: seq<string>)
    ensures |r| == |CsvHeader|
  {
    [Decimal(q.id), q.question, OptionOrEmpty(q.options, 0), OptionOrEmpty(q.options, 1),
     OptionOrEmpty(q.options, 2), OptionOrEmpty(q.options, 3), AnswerText(q.correctAnswer), q.explanation.GetOr("")]
  }

  /** The header followed by one row per question. */
  function CsvTable(qs: seq<Question>): (t: seq<seq<string>>)
    ensures |t| == |qs| + 1 && t[0] == CsvHeader
    ensures forall i :: 0 <= i < |qs| ==> t[i + 1] == CsvCells(qs[i])
  {
    [CsvHeader] + seq(|qs|, i requires 0 <= i < |qs| => CsvCells(qs[i]))
  }

  /** A cell in double quotes, with nothing escaped. */
  function Quote(cell: string): string {
    "\"" + cell + "\""
  }

  function QuoteEach(cells: seq<string>): (r: seq<string>)
    ensures |r| == |cells| && forall i :: 0 <= i < |cells| ==> r[i] == Quote(cells[i])
  {
    seq(|cells|, i requires 0 <= i < |cells| => Quote(cells[i]))
  }

  function CsvRow(cells: seq<string>): string {
    Join(QuoteEach(cells), ",")
  }

  /** `downloadCSV`'s content: the rows of quoted cells separated by newlines. */
  function CsvContent(qs: seq<Question>): (content: string)
    ensures |CsvRow(CsvHeader)| <= |content| && content[..|CsvRow(CsvHeader)|] == CsvRow(CsvHeader)
  {
    var t := CsvTable(qs);
    var rows := seq(|t|, r requires 0 <= r < |t| => CsvRow(t[r]));
    assert rows[0] == CsvRow(CsvHeader);
    Join(rows, "\n")
  }

  /** No cell of the table contains `c`. */
  predicate CellsAvoid(t: seq<seq<string>>, c: char) {
    forall r, k :: 0 <= r < |t| && 0 <= k < |t[r]| ==> c !in t[r][k]
  }

  lemma QuoteAvoids(cell: string, c: char)
    requires c !in cell && c != '"'
    ensures c !in Quote(cell)
  {
    var s := Quote(cell);
    forall k | 0 <= k < |s| ensures s[k] != c {
      if 0 < k < |s| - 1 {
        assert s[k] == cell[k - 1];
      }
    }
  }

  /** Splitting a row at commas gives its quoted cells back, when no cell contains a comma. */
  lemma CsvRowCells(cells: seq<string>)
    requires |cells| >= 1 && forall k :: 0 <= k < |cells| ==> ',' !in cells[k]
    ensures Split(CsvRow(cells), ",") == QuoteEach(cells)
  {
    forall k | 0 <= k < |cells| ensures ',' !in QuoteEach(cells)[k] {
      QuoteAvoids(cells[k], ',');
    }
    SplitJoin(QuoteEach(cells), ',');
  }

  /** The header's cells hold neither a comma nor a newline. */
  lemma HeaderAvoids(c: char)
    requires c == ',' || c == '\n'
    ensures forall k :: 0 <= k < |CsvHeader| ==> c !in CsvHeader[k]
  {
  }

  /** With the questions' cells free of `c`, so is every cell of the table. */
  lemma TableAvoids(qs: seq<Question>, c: char)
    requires c == ',' || c == '\n'
    requires forall i :: 0 <= i < |qs| ==> forall k :: 0 <= k < 8 ==> c !in CsvCells(qs[i])[k]
    ensures CellsAvoid(CsvTable(qs), c)
  {
    var t := CsvTable(qs);
    HeaderAvoids(c);
    forall r, k | 0 <= r < |t| && 0 <= k < |t[r]| ensures c !in t[r][k] {
      if r > 0 {
        assert t[r] == CsvCells(qs[r - 1]);
      }
    }
  }

  /** A row whose cells hold no newline holds no newline. */
  lemma RowAvoidsNewline(cells: seq<string>)
    requires forall k :: 0 <= k < |cells| ==> '\n' !in cells[k]
    ensures '\n' !in CsvRow(cells)
  {
    forall k | 0 <= k < |cells| ensures '\n' !in QuoteEach(cells)[k] {
      QuoteAvoids(cells[k], '\n');
    }
    JoinAvoids(QuoteEach(cells), ",", '\n');
  }

  /** Splitting the content at newlines gives the rows, when no cell contains a newline. */
  lemma CsvLines(qs: seq<Question>)
    requires CellsAvoid(CsvTable(qs), '\n')
    ensures var t := CsvTable(qs);
      Split(CsvContent(qs), "\n") == seq(|t|, r requires 0 <= r < |t| => CsvRow(t[r]))
  {
    var t := CsvTable(qs);
    var rows := seq(|t|, r requires 0 <= r < |t| => CsvRow(t[r]));
    forall r | 0 <= r < |t| ensures '\n' !in rows[r] {
      RowAvoidsNewline(t[r]);
    }
    SplitJoin(rows, '\n');
  }

  /**
   * When no cell contains a comma or a newline, reading the CSV back (rows at newlines, cells
   * at commas) gives the header and one row per question, each of eight quoted cells.
   */
  lemma CsvRoundTrip(qs: seq<Question>)
    requires forall i :: 0 <= i < |qs| ==> forall k :: 0 <= k < 8 ==> ',' !in CsvCells(qs[i])[k] && '\n' !in CsvCells(qs[i])[k]
    ensures var lines := Split(CsvContent(qs), "\n");
      && |lines| == |qs| + 1
      && forall r :: 0 <= r < |lines| ==> Split(lines[r], ",") == QuoteEach(CsvTable(qs)[r]) && |Split(lines[r], ",")| == 8
  {
    var t := CsvTable(qs);
    var lines := Split(CsvContent(qs), "\n");
    TableAvoids(qs, ',');
    TableAvoids(qs, '\n');
    CsvLines(qs);
    forall r | 0 <= r < |lines| ensures Split(lines[r], ",") == QuoteEach(t[r]) && |Split(lines[r], ",")| == 8 {
      assert lines[r] == CsvRow(t[r]);
      assert |t[r]| == 8;
      CsvRowCells(t[r]);
    }
  }

  /** The generator page's form and result state. */
  class GeneratorPage {
    var file: Option<FileInfo>
    var subject: string
    var questionCount: nat
    var tone: string
    var difficulty: string
    var questionTypes: seq<string>
    var questions: seq<Question>

    /** The form's initial values: ten questions, only `multiple-choice` selected. */
    constructor ()
      ensures file == None && subject == "" && questionCount == 10 && tone == "" && difficulty == ""
      ensures questionTypes == ["multiple-choice"] && questions == []
    {
      file := None;
      subject := "";
      questionCount := 10;
      tone := "";
      difficulty := "";
      questionTypes := ["multiple-choice"];
      questions := [];
    }

    /** `handleFileUpload`: no file, or a file the checks refuse, leaves the kept file alone. */
    method HandleFileUpload(upload: Option<FileInfo>) returns (outcome: Option<Result<FileInfo, string>>)
      modifies this`file
      ensures upload.None? ==> outcome == None && file == old(file)
      ensures upload.Some? ==> outcome == Some(CheckUpload(upload.value))
      ensures upload.Some? && CheckUpload(upload.value).Ok? ==> file == upload
      ensures upload.Some? && CheckUpload(upload.value).Err? ==> file == old(file)
    {
      if upload.None? {
        return None;
      }
      var checked := CheckUpload(upload.value);
      if checked.Ok? {
        file := upload;
      }
      outcome := Some(checked);
    }

    /** A question-type checkbox: checking appends the type, unchecking removes every occurrence. */
    method SetQuestionType(value: string, checked: bool)
      modifies this`questionTypes
      ensures checked ==> questionTypes == old(questionTypes) + [value]
      ensures !checked ==> questionTypes == Without(old(questionTypes), value)
    {
      if checked {
        questionTypes := questionTypes + [value];
      } else {
        questionTypes := Without(questionTypes, value);
      }
    }

    /**
     * `generateQuestions`, with the service's answer as a parameter (`Err` for a failed or
     * thrown request): the request is prepared from the form; only when it is sent and the
     * service succeeds are the converted questions kept.
     */
    method GenerateQuestions(response: Result<Option<seq<Api.Question>>, string>) returns (request: Result<Request, string>)
      modifies this`questions
      ensures request == PrepareGeneration(file, subject, questionCount, questionTypes, tone, difficulty)
      ensures request.Ok? && response.Ok? ==> questions == ConvertResponse(response.value)
      ensures request.Err? || response.Err? ==> questions == old(questions)
    {
      request := PrepareGeneration(file, subject, questionCount, questionTypes, tone, difficulty);
      if request.Err? {
        return;
      }
      if response.Ok? {
        questions := ConvertResponse(response.value);
      }
    }

    /** The text `copyAllQuestions` writes to the clipboard. */
    method CopyAllQuestions() returns (text: string)
      ensures text == ClipboardText(questions)
    {
      text := ClipboardText(questions);
    }

    /** The content of the file `downloadCSV` offers. */
    method DownloadCsv() returns (content: string)
      ensures content == CsvContent(questions)
    {
      content := CsvContent(questions);
    }
  }
}
