/** `generate_drafts`: resolve the sheet's rows, read the resume, and build
    one draft per dict row, asking the language model for each body. The
    sheet tool, the resume download and the model are outside this code;
    their outcomes are inputs. */
module Drafts {
  import opened PyStrings
  import opened Rows
  import opened Resume
  import opened Backends
  import opened Prompts

  // ---------------------------------------------------------------- body

  /** What the model returned, or the message of the exception it raised. */
  datatype LlmOutcome = Returned(value: PyValue) | Raised(message: string)

  const LlmFailurePrefix: string := "[LLM generation failed: "

  /** The body taken from the model's output. backend/main.py keeps it only
      when truthy; backend/agent_runner.py keeps every value except None. */
  function Body(backend: Backend, outcome: LlmOutcome): string {
    match outcome
    case Raised(message) => LlmFailurePrefix + message + "]"
    case Returned(v) =>
      var kept := match backend case MainApp => PyTruthy(v) case AgentRunner => !v.PyNone?;
      if kept then Strip(PyStrOf(v)) else ""
  }

  /** A returned body is whitespace-free at both ends, and a None output
      gives "" in both copies (never the text "None"). */
  lemma ReturnedBody(backend: Backend, v: PyValue)
    ensures Trimmed(Body(backend, Returned(v)))
    ensures Body(backend, Returned(v)) == "" || Body(backend, Returned(v)) == Strip(PyStrOf(v))
    ensures v.PyNone? ==> Body(backend, Returned(v)) == ""
    ensures PyTruthy(v) ==> Body(backend, Returned(v)) == Strip(PyStrOf(v))
    ensures backend == MainApp && !PyTruthy(v) ==> Body(backend, Returned(v)) == ""
    ensures backend == AgentRunner && !v.PyNone? ==> Body(backend, Returned(v)) == Strip(PyStrOf(v))
  {
  }

  /** A failed generation becomes a diagnostic body that names the error,
      the same in both copies. */
  lemma FailureBody(backend: Backend, message: string)
    ensures Contains(Body(backend, Raised(message)), message)
    ensures Body(backend, Raised(message)) == Body(MainApp, Raised(message))
    ensures |Body(backend, Raised(message))| == |LlmFailurePrefix| + |message| + 1
  {
    ContainsInside(LlmFailurePrefix, message, "]");
  }

  /** The two copies disagree exactly on falsy outputs other than None
      whose text does not strip to "" (0, an empty list, False, ...). */
  lemma BodyCopiesDiffer(v: PyValue)
    ensures Body(MainApp, Returned(v)) != Body(AgentRunner, Returned(v))
      <==> !v.PyNone? && !PyTruthy(v) && Strip(PyStrOf(v)) != ""
  {
  }

  /** The output 0 gives an empty body in backend/main.py and "0" in backend/agent_runner.py. */
  lemma ZeroOutputDiffers()
    ensures Body(MainApp, Returned(PyOther(false, "0"))) == ""
    ensures Body(AgentRunner, Returned(PyOther(false, "0"))) == "0"
  {
    var v := PyOther(false, "0");
    assert PyStrOf(v) == "0";
    assert Trimmed("0") by {
      assert "0"[0] == '0';
    }
    StripKeeps("0");
  }

  // ---------------------------------------------------------------- drafts

  datatype Draft = Draft(company: string, hrEmail: string, jobRole: string, subject: string, body: string, resumeLink: string)

  /** The model's answer for the row at `index` of the row list, asked with `prompt`. */
  type Llm = (nat, string) -> LlmOutcome

  /** What every row of one run shares: the copy of the code, its prompt
      template, the resume text and link, and the model. */
  datatype Setup = Setup(backend: Backend, template: seq<Piece>, resumeText: string, resumeLink: string, llm: Llm)

  /** The draft for the dict row at `index` of the row list. */
  function DraftFor(s: Setup, index: nat, row: Row): Draft {
    var nr := NormalizeRowKeys(row);
    var company, hrEmail, jobRole := Field(nr, "company"), Field(nr, "hr_email"), Field(nr, "job_role");
    var prompt := Prompt(s.template, company, jobRole, s.resumeText, s.resumeLink);
    Draft(company, hrEmail, jobRole, Subject(company, jobRole), Body(s.backend, s.llm(index, prompt)), s.resumeLink)
  }

  /** A draft's fields are the row's resolved fields, its subject is built
      from them alone, and its body is the model's answer to the row's prompt. */
  lemma DraftFields(s: Setup, index: nat, row: Row)
    ensures var d := DraftFor(s, index, row);
      && d.company == ResolveField(row, CompanyKeys)
      && d.hrEmail == ResolveField(row, HrEmailKeys)
      && d.jobRole == ResolveField(row, JobRoleKeys)
      && d.subject == Subject(d.company, d.jobRole)
      && d.body == Body(s.backend, s.llm(index, Prompt(s.template, d.company, d.jobRole, s.resumeText, s.resumeLink)))
      && d.resumeLink == s.resumeLink
  {
    NormalizedFields(row);
  }

  /** The dict rows of the row list with their positions, in list order. */
  function DictRows(items: seq<Item>): (r: seq<(nat, Row)>)
    ensures |r| <= |items|
    ensures forall k :: 0 <= k < |r| ==> r[k].0 < |items| && items[r[k].0] == RowItem(r[k].1)
    ensures forall k, l :: 0 <= k < l < |r| ==> r[k].0 < r[l].0
  {
    if items == [] then []
    else
      var init := DictRows(items[..|items| - 1]);
      match items[|items| - 1]
      case RowItem(row) => init + [(|items| - 1, row)]
      case OtherItem => init
  }

  /** No dict row is missed. */
  lemma {:induction false} DictRowsComplete(items: seq<Item>, i: nat)
    requires i < |items| && items[i].RowItem?
    ensures exists k :: 0 <= k < |DictRows(items)| && DictRows(items)[k] == (i, items[i].row)
  {
    var init := items[..|items| - 1];
    if i == |items| - 1 {
      var r := DictRows(items);
      assert r[|r| - 1] == (i, items[i].row);
    } else {
      assert init[i] == items[i];
      DictRowsComplete(init, i);
      var k :| 0 <= k < |DictRows(init)| && DictRows(init)[k] == (i, init[i].row);
      assert DictRows(items)[k] == DictRows(init)[k];
    }
  }

  /** The shape of the loop in `generate_drafts`: walk the list, skip what
      is not a dict, and append `make(position, row)` for each dict row. */
  function ForEachDictRow(items: seq<Item>, make: (nat, Row) -> Draft): (r: seq<Draft>)
    ensures |r| <= |items|
  {
    if items == [] then []
    else
      var init := ForEachDictRow(items[..|items| - 1], make);
      match items[|items| - 1]
      case RowItem(row) => init + [make(|items| - 1, row)]
      case OtherItem => init
  }

  /** Exactly one result per dict row, in row order. */
  lemma {:induction false} ForEachFollowsRows(items: seq<Item>, make: (nat, Row) -> Draft)
    ensures var d, rows := ForEachDictRow(items, make), DictRows(items);
      && |d| == |rows|
      && forall k :: 0 <= k < |d| ==> d[k] == make(rows[k].0, rows[k].1)
  {
    if items != [] {
      ForEachFollowsRows(items[..|items| - 1], make);
    }
  }

  /** The drafts built from `items`, in order. */
  function DraftsFor(s: Setup, items: seq<Item>): seq<Draft> {
    ForEachDictRow(items, (i: nat, row: Row) => DraftFor(s, i, row))
  }

  /** One more element of the list adds the draft of that element if it is a dict row. */
  lemma DraftsForStep(s: Setup, items: seq<Item>, i: nat)
    requires i < |items|
    ensures DraftsFor(s, items[..i + 1]) ==
      DraftsFor(s, items[..i]) + (if items[i].RowItem? then [DraftFor(s, i, items[i].row)] else [])
  {
    assert items[..i + 1][..i] == items[..i];
  }

  /** The loop of `generate_drafts`: skip what is not a dict, append one
      draft per dict row. */
  method BuildDrafts(s: Setup, items: seq<Item>) returns (drafts: seq<Draft>)
    ensures drafts == DraftsFor(s, items)
  {
    drafts := [];
    for i := 0 to |items|
      invariant drafts == DraftsFor(s, items[..i])
    {
      DraftsForStep(s, items, i);
      match items[i]
      case OtherItem =>
      case RowItem(row) =>
        var nr := NormalizeRowKeys(row);
        var company := Field(nr, "company");
        var hrEmail := Field(nr, "hr_email");
        var jobRole := Field(nr, "job_role");
        var prompt := Prompt(s.template, company, jobRole, s.resumeText, s.resumeLink);
        var body := Body(s.backend, s.llm(i, prompt));
        var subject := Subject(company, jobRole);
        drafts := drafts + [Draft(company, hrEmail, jobRole, subject, body, s.resumeLink)];
    }
    assert items[..|items|] == items;
  }

  /** Draft count and order: exactly one draft per dict row, in row order,
      each built from its own row; other elements are skipped. */
  lemma DraftsFollowRows(s: Setup, items: seq<Item>)
    ensures var d, rows := DraftsFor(s, items), DictRows(items);
      && |d| == |rows|
      && forall k :: 0 <= k < |d| ==> d[k] == DraftFor(s, rows[k].0, rows[k].1)
  {
    ForEachFollowsRows(items, (i: nat, row: Row) => DraftFor(s, i, row));
  }

  /** Every draft carries the same resume link. */
  lemma DraftsShareLink(s: Setup, items: seq<Item>)
    ensures forall d :: d in DraftsFor(s, items) ==> d.resumeLink == s.resumeLink
  {
    DraftsFollowRows(s, items);
  }

  /** Everything but the bodies is independent of the model: two runs with
      different model answers give drafts that agree on every other field. */
  lemma LlmOnlyShapesBodies(s: Setup, items: seq<Item>, other: Llm)
    ensures var d1, d2 := DraftsFor(s, items), DraftsFor(s.(llm := other), items);
      && |d1| == |d2|
      && forall k :: 0 <= k < |d1| ==> d1[k].(body := "") == d2[k].(body := "")
  {
    DraftsFollowRows(s, items);
    DraftsFollowRows(s.(llm := other), items);
  }

  /** A failure for one row is absorbed into that row's body: the draft
      still exists, its body names the error, and every other draft is as
      it would have been. */
  lemma FailureStaysInItsRow(s: Setup, items: seq<Item>, failing: Llm, i: nat, message: string)
    requires forall j, p :: j != i ==> failing(j, p) == s.llm(j, p)
    requires forall p :: failing(i, p) == Raised(message)
    ensures var d1, d2, rows := DraftsFor(s, items), DraftsFor(s.(llm := failing), items), DictRows(items);
      && |d1| == |rows| && |d2| == |rows|
      && forall k :: 0 <= k < |rows| ==>
           if rows[k].0 == i then d2[k] == d1[k].(body := LlmFailurePrefix + message + "]")
           else d2[k] == d1[k]
  {
    DraftsFollowRows(s, items);
    DraftsFollowRows(s.(llm := failing), items);
  }

  /** A one-row sheet whose first-choice columns hold trimmed, non-empty
      values gives one draft with exactly those values, and a subject built
      from them: "Company"="Acme", "Job Role"="Engineer" gives
      "Job Application - Engineer at Acme". */
  lemma SingleRowDraft(s: Setup, row: Row, company: string, hrEmail: string, jobRole: string)
    requires Get(row, "Company") == Some(company) && company != "" && Trimmed(company)
    requires Get(row, "HR Email") == Some(hrEmail) && hrEmail != "" && Trimmed(hrEmail)
    requires Get(row, "Job Role") == Some(jobRole) && jobRole != "" && Trimmed(jobRole)
    ensures var d := DraftsFor(s, [RowItem(row)]);
      && |d| == 1
      && d[0].company == company && d[0].hrEmail == hrEmail && d[0].jobRole == jobRole
      && d[0].subject == "Job Application - " + jobRole + " at " + company
  {
    OneRowOneDraft(s, row);
    DraftFields(s, 0, row);
    FirstChoiceResolves(row, CompanyKeys, company);
    FirstChoiceResolves(row, HrEmailKeys, hrEmail);
    FirstChoiceResolves(row, JobRoleKeys, jobRole);
  }

  lemma OneRowOneDraft(s: Setup, row: Row)
    ensures DraftsFor(s, [RowItem(row)]) == [DraftFor(s, 0, row)]
  {
    assert [RowItem(row)][..0] == [];
  }

  /** A trimmed, non-empty value under the first key of a list is the field's value. */
  lemma FirstChoiceResolves(row: Row, keys: seq<string>, v: string)
    requires keys != [] && Get(row, keys[0]) == Some(v) && v != "" && Trimmed(v)
    ensures ResolveField(row, keys) == v
  {
    FieldResolution(row, keys, 0);
    StripKeeps(v);
  }

  // ---------------------------------------------------------------- the whole operation

  /** What the sheet tool produced, or the message of the exception it raised. */
  datatype SheetFetch = SheetFetched(output: Value) | SheetFetchFailed(message: string)

  /** The resume download: whether the file exists afterwards and the text
      of each page, or an exception from downloading or parsing. */
  datatype ResumeFetch = ResumeDownloaded(fileExists: bool, pages: seq<Option<string>>) | ResumeFailed

  /** The dict `generate_drafts` returns; `error` is present only on a failed fetch. */
  datatype DraftsReply = DraftsReply(drafts: seq<Draft>, resumeLink: string, error: Option<string>)

  const FetchFailurePrefix: string := "Failed to fetch Google Sheet rows: "
  const DriveFilePrefix: string := "https://drive.google.com/file/d/"

  function DriveLink(resumeId: string): string {
    DriveFilePrefix + resumeId + "/view"
  }

  /** The resume text and link: both "" without an id or when fetching failed. */
  function ResumeFor(resumeId: string, resume: ResumeFetch): (string, string) {
    if resumeId != "" && resume.ResumeDownloaded? then
      (ResumeText(resume.fileExists, resume.pages), DriveLink(resumeId))
    else ("", "")
  }

  function GenerateDraftsSpec(backend: Backend, sheet: SheetFetch, resumeId: string, resume: ResumeFetch, llm: Llm): DraftsReply {
    match sheet
    case SheetFetchFailed(message) => DraftsReply([], "", Some(FetchFailurePrefix + message))
    case SheetFetched(output) =>
      var (text, link) := ResumeFor(resumeId, resume);
      DraftsReply(DraftsFor(Setup(backend, Template(backend), text, link, llm), ResolveRows(output)), link, None)
  }

  method GenerateDrafts(backend: Backend, sheet: SheetFetch, resumeId: string, resume: ResumeFetch, llm: Llm)
    returns (reply: DraftsReply)
    ensures reply == GenerateDraftsSpec(backend, sheet, resumeId, resume, llm)
  {
    if sheet.SheetFetchFailed? {
      return DraftsReply([], "", Some(FetchFailurePrefix + sheet.message));
    }
    var items := ResolveRows(sheet.output);
    var resumeText, resumeLink := "", "";
    if resumeId != "" {
      match resume
      case ResumeFailed =>
        resumeText, resumeLink := "", "";
      case ResumeDownloaded(fileExists, pages) =>
        resumeText := ParseResume(fileExists, pages);
        resumeLink := DriveLink(resumeId);
    }
    var drafts := BuildDrafts(Setup(backend, Template(backend), resumeText, resumeLink, llm), items);
    reply := DraftsReply(drafts, resumeLink, None);
  }

  /** A failed sheet fetch gives no drafts, no link and an error naming the
      exception; otherwise there is no error. */
  lemma FetchFailureReply(backend: Backend, sheet: SheetFetch, resumeId: string, resume: ResumeFetch, llm: Llm)
    ensures var r := GenerateDraftsSpec(backend, sheet, resumeId, resume, llm);
      && (r.error.Some? <==> sheet.SheetFetchFailed?)
      && (sheet.SheetFetchFailed? ==>
            r.drafts == [] && r.resumeLink == "" && Contains(r.error.value, sheet.message))
  {
    if sheet.SheetFetchFailed? {
      ContainsInside(FetchFailurePrefix, sheet.message, "");
      assert FetchFailurePrefix + sheet.message + "" == FetchFailurePrefix + sheet.message;
    }
  }

  /** Every draft carries the reply's resume link, and that link is the
      Drive view URL exactly when there is a resume id whose download and
      parse went through. */
  lemma ResumeLinkShared(backend: Backend, sheet: SheetFetch, resumeId: string, resume: ResumeFetch, llm: Llm)
    ensures var r := GenerateDraftsSpec(backend, sheet, resumeId, resume, llm);
      && (forall k :: 0 <= k < |r.drafts| ==> r.drafts[k].resumeLink == r.resumeLink)
      && (r.resumeLink != "" <==> sheet.SheetFetched? && resumeId != "" && resume.ResumeDownloaded?)
      && (r.resumeLink != "" ==> r.resumeLink == DriveLink(resumeId))
  {
    if sheet.SheetFetched? {
      var (text, link) := ResumeFor(resumeId, resume);
      DraftsShareLink(Setup(backend, Template(backend), text, link, llm), ResolveRows(sheet.output));
    }
  }

  /** With the sheet fetched, the drafts are those of the resolved rows:
      one per dict element, in order, all sharing the resume text. */
  lemma FetchedDrafts(backend: Backend, output: Value, resumeId: string, resume: ResumeFetch, llm: Llm)
    ensures var r := GenerateDraftsSpec(backend, SheetFetched(output), resumeId, resume, llm);
      var rows := DictRows(ResolveRows(output));
      && |r.drafts| == |rows|
      && forall k :: 0 <= k < |rows| ==>
           r.drafts[k] == DraftFor(Setup(backend, Template(backend), ResumeFor(resumeId, resume).0, r.resumeLink, llm), rows[k].0, rows[k].1)
  {
    var (text, link) := ResumeFor(resumeId, resume);
    DraftsFollowRows(Setup(backend, Template(backend), text, link, llm), ResolveRows(output));
  }
}
