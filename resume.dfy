/** `parse_resume`: the step that joins the text of a PDF's pages. Opening
    the file and extracting a page's text are done by the PDF library; here
    they are the inputs `fileExists` and `pages`, one entry per page holding
    what `page.extract_text()` returned (a string, or None). */
module Resume {
  import opened PyStrings

  /** `page.extract_text() or ""`. */
  function PageText(page: Option<string>): string {
    if page.Some? then page.value else ""
  }

  /** What the loop has accumulated after `pages`: each page with text,
      followed by a newline; pages without text add nothing. */
  function Joined(pages: seq<Option<string>>): string {
    if pages == [] then ""
    else
      var last := PageText(pages[|pages| - 1]);
      Joined(pages[..|pages| - 1]) + (if last != "" then last + "\n" else "")
  }

  /** The text `parse_resume` returns. */
  function ResumeText(fileExists: bool, pages: seq<Option<string>>): string {
    if fileExists then Strip(Joined(pages)) else ""
  }

  method ParseResume(fileExists: bool, pages: seq<Option<string>>) returns (text: string)
    ensures text == ResumeText(fileExists, pages)
    ensures Trimmed(text)
  {
    var content := "";
    if !fileExists {
      return "";
    }
    for i := 0 to |pages|
      invariant content == Joined(pages[..i])
    {
      assert pages[..i + 1][..i] == pages[..i];
      var pageText := PageText(pages[i]);
      if pageText != "" {
        content := content + pageText + "\n";
      }
    }
    assert pages[..|pages|] == pages;
    text := Strip(content);
  }

  /** Joining distributes over splitting the page list anywhere. */
  lemma {:induction false} JoinedAppend(a: seq<Option<string>>, b: seq<Option<string>>)
    ensures Joined(a + b) == Joined(a) + Joined(b)
    decreases |b|
  {
    if b == [] {
      assert a + b == a;
    } else {
      var b' := b[..|b| - 1];
      var last := PageText(b[|b| - 1]);
      var tail := if last != "" then last + "\n" else "";
      assert (a + b)[..|a + b| - 1] == a + b';
      assert (a + b)[|a + b| - 1] == b[|b| - 1];
      assert Joined(a + b) == Joined(a + b') + tail;
      assert Joined(b) == Joined(b') + tail;
      JoinedAppend(a, b');
    }
  }

  /** The joined text of a list with one page singled out. */
  lemma JoinedAround(a: seq<Option<string>>, page: Option<string>, b: seq<Option<string>>)
    ensures Joined(a + [page] + b) == Joined(a) + (if PageText(page) != "" then PageText(page) + "\n" else "") + Joined(b)
  {
    JoinedAppend(a + [page], b);
    assert (a + [page])[..|a + [page]| - 1] == a;
  }

  /** A page without text contributes nothing, wherever it stands. */
  lemma BlankPageIgnored(a: seq<Option<string>>, page: Option<string>, b: seq<Option<string>>)
    requires PageText(page) == ""
    ensures Joined(a + [page] + b) == Joined(a + b)
  {
    JoinedAround(a, page, b);
    JoinedAppend(a, b);
  }

  /** Every page with text appears in the joined text, followed by a newline. */
  lemma PageAppears(pages: seq<Option<string>>, i: nat)
    requires i < |pages| && PageText(pages[i]) != ""
    ensures Contains(Joined(pages), PageText(pages[i]) + "\n")
  {
    var a, b := pages[..i], pages[i + 1..];
    assert pages == a + [pages[i]] + b;
    JoinedAround(a, pages[i], b);
    ContainsInside(Joined(a), PageText(pages[i]) + "\n", Joined(b));
  }

  /** A missing file, or one whose pages all lack text, gives "". */
  lemma {:induction false} NoTextGivesEmpty(fileExists: bool, pages: seq<Option<string>>)
    requires !fileExists || forall i :: 0 <= i < |pages| ==> PageText(pages[i]) == ""
    ensures ResumeText(fileExists, pages) == ""
  {
    if fileExists {
      NoTextJoinsEmpty(pages);
    }
  }

  lemma {:induction false} NoTextJoinsEmpty(pages: seq<Option<string>>)
    requires forall i :: 0 <= i < |pages| ==> PageText(pages[i]) == ""
    ensures Joined(pages) == ""
  {
    if pages != [] {
      NoTextJoinsEmpty(pages[..|pages| - 1]);
    }
  }
}
