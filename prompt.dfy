/** The prompt `generate_drafts` sends to the model for one row, and the
    subject line it writes beside it. The template is `PROMPT_TEMPLATE`
    filled in with `str.format`; each copy of the code has its own text. */
module Prompts {
  import opened PyStrings
  import opened Backends

  /** The resume text handed to the model is cut to this many characters. */
  const ResumeTextLimit: nat := 12000
  /** The word limit written into the prompt. */
  const WordLimit: nat := 200

  /** The named placeholders of the prompt template. */
  datatype Slot = WordLimitSlot | CompanySlot | JobRoleSlot | ResumeTextSlot | ResumeLinkSlot

  /** A template is literal text interleaved with placeholders, as
      `str.format` sees it. */
  datatype Piece = Lit(text: string) | Hole(slot: Slot)

  datatype PromptArgs = PromptArgs(wordLimit: string, company: string, jobRole: string, resumeText: string, resumeLink: string)

  function Arg(args: PromptArgs, slot: Slot): string {
    match slot
    case WordLimitSlot => args.wordLimit
    case CompanySlot => args.company
    case JobRoleSlot => args.jobRole
    case ResumeTextSlot => args.resumeText
    case ResumeLinkSlot => args.resumeLink
  }

  /** `template.format(**args)`. */
  function Fill(template: seq<Piece>, args: PromptArgs): string {
    if template == [] then ""
    else
      (match template[0] case Lit(t) => t case Hole(slot) => Arg(args, slot)) + Fill(template[1..], args)
  }

  /** `PROMPT_TEMPLATE` of backend/main.py. */
  const MainTemplate: seq<Piece> := [
    Lit("You are an expert job application writer.\nWrite a concise ("), Hole(WordLimitSlot),
    Lit(" words max) professional email for:\nCompany: "), Hole(CompanySlot),
    Lit("\nRole: "), Hole(JobRoleSlot),
    Lit("\n\nUse relevant skills/projects from this resume to tailor the pitch:\n"), Hole(ResumeTextSlot),
    Lit("\n\nRules:\n- DO NOT include a subject line in the body.\n- Mention the company/role naturally.\n"
      + "- Close with signature on separate lines:\n  Full Name\n  Email\n  Phone\n  LinkedIn\n"
      + "- End with: \"I have attached my resume for your review: "), Hole(ResumeLinkSlot),
    Lit("\"\n\nOutput only the final email body in plain text.\n")
  ]

  /** `PROMPT_TEMPLATE` of backend/agent_runner.py: two rules worded differently and one more. */
  const RunnerTemplate: seq<Piece> := [
    Lit("You are an expert job application writer.\nWrite a concise ("), Hole(WordLimitSlot),
    Lit(" words max) professional email for:\nCompany: "), Hole(CompanySlot),
    Lit("\nRole: "), Hole(JobRoleSlot),
    Lit("\n\nUse relevant skills/projects from this resume to tailor the pitch:\n"), Hole(ResumeTextSlot),
    Lit("\n\nRules:\n- DO NOT include a subject line in the body.\n- No meta text (\"here's your email\", etc.).\n"
      + "- Mention the company/role naturally.\n"
      + "- Close with a signature on separate lines (parsed from resume if possible):\n"
      + "  Full Name\n  Email\n  Phone\n  LinkedIn (if present)\n"
      + "- End with: \"I have attached my resume for your review: "), Hole(ResumeLinkSlot),
    Lit("\"\n\nOutput only the final email body in plain text.\n")
  ]

  function Template(backend: Backend): seq<Piece> {
    match backend
    case MainApp => MainTemplate
    case AgentRunner => RunnerTemplate
  }

  /** The two copies' templates differ only in the block of rules, which
      is longer in backend/agent_runner.py (it adds the rule "No meta text
      ..." and words two others at more length). */
  lemma TemplatesDiffer()
    ensures |MainTemplate| == |RunnerTemplate| == 11
    ensures forall i :: 0 <= i < 11 && i != 8 ==> MainTemplate[i] == RunnerTemplate[i]
    ensures MainTemplate[8].Lit? && RunnerTemplate[8].Lit?
    ensures |MainTemplate[8].text| < |RunnerTemplate[8].text|
  {
  }

  /** The placeholder `slot` occurs in `template`. */
  predicate HasHole(template: seq<Piece>, slot: Slot) {
    exists i :: 0 <= i < |template| && template[i] == Hole(slot)
  }

  /** Every placeholder occurs in `template`. */
  predicate HasEveryHole(template: seq<Piece>) {
    && HasHole(template, WordLimitSlot) && HasHole(template, CompanySlot) && HasHole(template, JobRoleSlot)
    && HasHole(template, ResumeTextSlot) && HasHole(template, ResumeLinkSlot)
  }

  /** Both copies' templates use every placeholder. */
  lemma TemplatesHaveEveryHole(backend: Backend)
    ensures HasEveryHole(Template(backend))
  {
    var t := Template(backend);
    assert t[1] == Hole(WordLimitSlot) && t[3] == Hole(CompanySlot) && t[5] == Hole(JobRoleSlot);
    assert t[7] == Hole(ResumeTextSlot) && t[9] == Hole(ResumeLinkSlot);
  }

  /** The arguments `generate_drafts` formats the template with. */
  function PromptArgsFor(company: string, jobRole: string, resumeText: string, resumeLink: string): PromptArgs {
    PromptArgs(NatToString(WordLimit), Or(company, "the company"), Or(jobRole, "the role"),
      Take(resumeText, ResumeTextLimit), resumeLink)
  }

  function Prompt(template: seq<Piece>, company: string, jobRole: string, resumeText: string, resumeLink: string): string {
    Fill(template, PromptArgsFor(company, jobRole, resumeText, resumeLink))
  }

  lemma {:induction false} FillAppend(a: seq<Piece>, b: seq<Piece>, args: PromptArgs)
    ensures Fill(a + b, args) == Fill(a, args) + Fill(b, args)
    decreases |a|
  {
    if a == [] {
      assert a + b == b;
    } else {
      assert (a + b)[0] == a[0];
      assert (a + b)[1..] == a[1..] + b;
      FillAppend(a[1..], b, args);
    }
  }

  /** Every placeholder of the template receives its argument in the result. */
  lemma FillContainsHole(template: seq<Piece>, args: PromptArgs, slot: Slot)
    requires HasHole(template, slot)
    ensures Contains(Fill(template, args), Arg(args, slot))
  {
    var i :| 0 <= i < |template| && template[i] == Hole(slot);
    var before, here, after := template[..i], [template[i]], template[i + 1..];
    assert template == before + here + after;
    FillAppend(before + here, after, args);
    FillAppend(before, here, args);
    assert Fill(here, args) == Arg(args, slot) by {
      assert here[0] == Hole(slot) && here[1..] == [];
    }
    ContainsInside(Fill(before, args), Arg(args, slot), Fill(after, args));
  }

  /** The prompt names the company and role, with "the company" and "the
      role" standing in for blanks, states the 200-word limit, and carries
      the resume link and the resume text cut to its first 12000 characters. */
  lemma PromptContents(template: seq<Piece>, company: string, jobRole: string, resumeText: string, resumeLink: string)
    requires HasEveryHole(template)
    ensures var p := Prompt(template, company, jobRole, resumeText, resumeLink);
      && Contains(p, Or(company, "the company"))
      && Contains(p, Or(jobRole, "the role"))
      && Contains(p, "200")
      && Contains(p, resumeLink)
      && Contains(p, Take(resumeText, ResumeTextLimit))
  {
    var args := PromptArgsFor(company, jobRole, resumeText, resumeLink);
    assert NatToString(WordLimit) == "200" by {
      assert NatToString(20) == NatToString(2) + [Digit(0)];
    }
    FillContainsHole(template, args, WordLimitSlot);
    FillContainsHole(template, args, CompanySlot);
    FillContainsHole(template, args, JobRoleSlot);
    FillContainsHole(template, args, ResumeTextSlot);
    FillContainsHole(template, args, ResumeLinkSlot);
  }

  /** What the prompt carries of the resume is its first 12000 characters,
      or the whole text when it is no longer than that. */
  lemma PromptResumeText(resumeText: string)
    ensures var cut := Take(resumeText, ResumeTextLimit);
      && |cut| <= 12000 && cut == resumeText[..|cut|]
      && (|resumeText| <= 12000 ==> cut == resumeText)
      && (|resumeText| > 12000 ==> |cut| == 12000)
  {
  }

  /** The subject line, with "the role" and "Company" standing in for blanks. */
  function Subject(company: string, jobRole: string): string {
    "Job Application - " + Or(jobRole, "the role") + " at " + Or(company, "Company")
  }

  /** For a row without a company the subject says "Company" while the
      prompt of either copy says "the company". */
  lemma BlankCompanyFallbacks(backend: Backend, jobRole: string, resumeText: string, resumeLink: string)
    ensures Contains(Subject("", jobRole), " at Company")
    ensures Contains(Prompt(Template(backend), "", jobRole, resumeText, resumeLink), "the company")
  {
    var s := Subject("", jobRole);
    var lead := "Job Application - " + Or(jobRole, "the role");
    assert s == lead + " at Company" + "";
    ContainsInside(lead, " at Company", "");
    TemplatesHaveEveryHole(backend);
    PromptContents(Template(backend), "", jobRole, resumeText, resumeLink);
  }
}
