/**
 * The blog collection schema of apps/website/src/content.config.ts: a
 * title whose every space-separated piece starts with a capital, a
 * description that starts with one, and a required `repo` string. The
 * object schema checks every field and reports all issues together, in
 * field order.
 */
module WebsiteBlog {
  import opened Wrappers
  import opened Frontmatter

  /** The string fields of an entry's frontmatter as read, each possibly missing. */
  datatype RawEntry = RawEntry(title: Option<string>, description: Option<string>, repo: Option<string>)

  /** The entry the schema produces. */
  datatype Entry = Entry(title: string, description: string, repo: string)

  /** Every issue of the entry, title first, then description, then repo. */
  function Issues(raw: RawEntry): (issues: seq<Issue>)
    ensures issues == [] <==>
              raw.title.Some? && WordInitialsCapital(raw.title.value)
              && raw.description.Some? && (raw.description.value == "" || !IsLower(raw.description.value[0]))
              && raw.repo.Some?
  {
    TitleIssues(raw.title) + DescriptionIssues(raw.description) + RequiredIssues("repo", raw.repo)
  }

  /** The schema: the entry unchanged when every field passes, otherwise every issue. */
  function Validate(raw: RawEntry): (r: Checked<Entry>)
    ensures r.Accepted? <==>
              raw.title.Some? && WordInitialsCapital(raw.title.value)
              && raw.description.Some? && (raw.description.value == "" || !IsLower(raw.description.value[0]))
              && raw.repo.Some?
    ensures r.Accepted? ==> r.entry == Entry(raw.title.value, raw.description.value, raw.repo.value)
    ensures r.Rejected? ==> 1 <= |r.issues| <= 3
  {
    var issues := Issues(raw);
    if issues == [] then Accepted(Entry(raw.title.value, raw.description.value, raw.repo.value))
    else Rejected(issues)
  }

  /** Each field's issues are exactly those its own check reports; no field's check sees another. */
  lemma IssuesPerField(raw: RawEntry)
    ensures IssuesFor(Issues(raw), "title") == TitleIssues(raw.title)
    ensures IssuesFor(Issues(raw), "description") == DescriptionIssues(raw.description)
    ensures IssuesFor(Issues(raw), "repo") == RequiredIssues("repo", raw.repo)
  {
    var t, d, p := TitleIssues(raw.title), DescriptionIssues(raw.description), RequiredIssues("repo", raw.repo);
    assert Issues(raw) == t + d + p;
    IssuesForAppend(t + d, p, "title");
    IssuesForAppend(t, d, "title");
    IssuesForAppend(t + d, p, "description");
    IssuesForAppend(t, d, "description");
    IssuesForAppend(t + d, p, "repo");
    IssuesForAppend(t, d, "repo");
    IssuesForOneField(t, "title", "description");
    IssuesForOneField(t, "title", "repo");
    IssuesForOneField(d, "description", "title");
    IssuesForOneField(d, "description", "repo");
    IssuesForOneField(p, "repo", "title");
    IssuesForOneField(p, "repo", "description");
  }

  /** A lower-case letter that starts the title or follows a space rejects the entry with the title message. */
  lemma LowerCaseInitialRejects(raw: RawEntry, i: nat)
    requires raw.title.Some? && i < |raw.title.value|
    requires i == 0 || raw.title.value[i - 1] == ' '
    requires IsLower(raw.title.value[i])
    ensures Validate(raw).Rejected?
    ensures Issue("title", "Use parcal case") in Validate(raw).issues
  {
    var t := raw.title.value;
    if i > 0 {
      assert AfterSpace(t, i);
    }
    assert !WordInitialsCapital(t);
    assert TitleIssues(raw.title) == [Issue("title", "Use parcal case")];
    assert Issues(raw)[0] == Issue("title", "Use parcal case");
  }
}
