/**
 * The blog collection schema of src/content/config.ts: the same title and
 * description checks as the website's schema, with no `repo` field.
 */
module LegacyBlog {
  import opened Wrappers
  import opened Frontmatter
  import WebsiteBlog

  datatype RawEntry = RawEntry(title: Option<string>, description: Option<string>)

  datatype Entry = Entry(title: string, description: string)

  /** Every issue of the entry, title first, then description. */
  function Issues(raw: RawEntry): (issues: seq<Issue>)
    ensures issues == [] <==>
              raw.title.Some? && WordInitialsCapital(raw.title.value)
              && raw.description.Some? && (raw.description.value == "" || !IsLower(raw.description.value[0]))
  {
    TitleIssues(raw.title) + DescriptionIssues(raw.description)
  }

  /** The schema: the entry unchanged when both fields pass, otherwise every issue. */
  function Validate(raw: RawEntry): (r: Checked<Entry>)
    ensures r.Accepted? <==>
              raw.title.Some? && WordInitialsCapital(raw.title.value)
              && raw.description.Some? && (raw.description.value == "" || !IsLower(raw.description.value[0]))
    ensures r.Accepted? ==> r.entry == Entry(raw.title.value, raw.description.value)
    ensures r.Rejected? ==> 1 <= |r.issues| <= 2
  {
    var issues := Issues(raw);
    if issues == [] then Accepted(Entry(raw.title.value, raw.description.value))
    else Rejected(issues)
  }

  /**
   * With a `repo` present, the website's schema decides exactly as this
   * one does and reports the same issues; without one, it rejects even
   * what this one accepts.
   */
  lemma AgreesWithWebsite(title: Option<string>, description: Option<string>, repo: Option<string>)
    ensures var website := WebsiteBlog.Validate(WebsiteBlog.RawEntry(title, description, repo));
            var legacy := Validate(RawEntry(title, description));
            (repo.Some? ==>
               (website.Accepted? <==> legacy.Accepted?)
               && (website.Rejected? ==> website.issues == legacy.issues))
            && (repo.None? ==> website.Rejected? && Issue("repo", "Required") in website.issues)
  {
    var w := WebsiteBlog.RawEntry(title, description, repo);
    var l := RawEntry(title, description);
    if repo.Some? {
      assert WebsiteBlog.Issues(w) == Issues(l) + [];
    } else {
      var ws := WebsiteBlog.Issues(w);
      assert ws[|ws| - 1] == Issue("repo", "Required");
    }
  }

  /** A single word whose initial is a lower-case letter, anywhere in the title, rejects the entry. */
  lemma LowerCaseInitialRejects(raw: RawEntry, i: nat)
    requires raw.title.Some? && i < |raw.title.value|
    requires i == 0 || raw.title.value[i - 1] == ' '
    requires IsLower(raw.title.value[i])
    ensures Validate(raw).Rejected?
    ensures Issue("title", "Use parcal case") in Validate(raw).issues
  {
    var website := WebsiteBlog.RawEntry(raw.title, raw.description, Some(""));
    WebsiteBlog.LowerCaseInitialRejects(website, i);
    AgreesWithWebsite(raw.title, raw.description, Some(""));
  }
}
