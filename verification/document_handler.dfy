/** `DocumentHandler.create_docx` of utils/document_handler.py: a resume
    record rendered into a fixed-order sequence of paragraphs. */
module DocumentHandler {
  import opened Wrappers
  import opened Text
  import opened Docx
  import opened ResumeRecord

  /** The one way rendering fails: `content['contact']['name']` is missing. */
  datatype RenderError = MissingContactName

  const SummaryTitle: string := "PROFESSIONAL SUMMARY"
  const ExperienceTitle: string := "PROFESSIONAL EXPERIENCE"
  const EducationTitle: string := "EDUCATION"
  const SkillsTitle: string := "TECHNICAL SKILLS"
  const ProjectsTitle: string := "PERSONAL PROJECTS"
  const VolunteeringTitle: string := "VOLUNTEER EXPERIENCE"
  const HonorsTitle: string := "HONORS & AWARDS"

  const CourseworkCaption: string := "Relevant Coursework: "
  const TechnologiesCaption: string := "Technologies: "

  // ---------------------------------------------------------------------------
  // Header

  /** The contact line built field by field: a present field starts the line
      when nothing precedes it and is otherwise appended after " | "; an
      absent field leaves the line as it was. */
  function AddField(line: Option<string>, field: Option<string>): Option<string> {
    if field.None? then line
    else if line.None? then field
    else Some(line.value + " | " + field.value)
  }

  function FieldPart(field: Option<string>): seq<string> {
    if field.Some? then [field.value] else []
  }

  /** `' | '.join(parts)`, or nothing when there are no parts. */
  function JoinedParts(parts: seq<string>): Option<string> {
    if |parts| == 0 then None else Some(Join(parts, " | "))
  }

  lemma JoinAddField(parts: seq<string>, field: Option<string>)
    ensures JoinedParts(parts + FieldPart(field)) == AddField(JoinedParts(parts), field)
  {
    if field.Some? {
      if |parts| == 0 {
        assert parts + FieldPart(field) == [field.value];
      } else {
        JoinSnoc(parts, field.value, " | ");
      }
    } else {
      assert parts + FieldPart(field) == parts;
    }
  }

  /** The contact fields that are present, email, phone, location and
      linkedin in that order, joined with " | ". */
  function ContactLine(c: Contact): (line: string)
    ensures line == AddField(AddField(AddField(AddField(None, c.email), c.phone), c.location), c.linkedin).GetOr("")
    ensures c.email.None? && c.phone.None? && c.location.None? && c.linkedin.None? ==> line == ""
    ensures c.email.Some? ==> c.email.value <= line
    ensures c.linkedin.Some? ==>
      |c.linkedin.value| <= |line| && line[|line| - |c.linkedin.value|..] == c.linkedin.value
  {
    var email := FieldPart(c.email);
    var upToPhone := email + FieldPart(c.phone);
    var upToLocation := upToPhone + FieldPart(c.location);
    var parts := upToLocation + FieldPart(c.linkedin);
    assert JoinedParts(parts).GetOr("")
        == AddField(AddField(AddField(AddField(None, c.email), c.phone), c.location), c.linkedin).GetOr("") by {
      JoinAddField([], c.email);
      assert [] + email == email;
      JoinAddField(email, c.phone);
      JoinAddField(upToPhone, c.location);
      JoinAddField(upToLocation, c.linkedin);
    }
    assert c.email.Some? ==> parts[0] == c.email.value;
    assert c.linkedin.Some? ==> parts[|parts| - 1] == c.linkedin.value;
    assert |parts| > 0 ==> Join(parts, " | ")[..|parts[0]|] == parts[0] by {
      if |parts| > 0 {
        JoinEnds(parts, " | ");
      }
    }
    assert |parts| > 0 ==>
      && |parts[|parts| - 1]| <= |Join(parts, " | ")|
      && Join(parts, " | ")[|Join(parts, " | ")| - |parts[|parts| - 1]|..] == parts[|parts| - 1] by {
      if |parts| > 0 {
        JoinEnds(parts, " | ");
      }
    }
    Join(parts, " | ")
  }

  /** The centred name and contact lines, present exactly when `contact` is. */
  function Header(contact: Option<Contact>): (r: Result<seq<Paragraph>, RenderError>)
    ensures r.Failure? <==> contact.Some? && contact.value.name.None?
    ensures r.Success? ==> |r.value| == (if contact.Some? then 2 else 0)
    ensures r.Success? ==> AllBody(r.value) && Spacer !in r.value
  {
    match contact
    case None => Success([])
    case Some(c) =>
      if c.name.None? then Failure(MissingContactName)
      else Success([Paragraph([Run(c.name.value, true, Some(NameSize))], Center, false, false, false),
                    Paragraph([Run(ContactLine(c), false, Some(BodySize))], Center, false, false, false)])
  }

  // ---------------------------------------------------------------------------
  // Entries

  /** A project or honor date is shown only when present, non-empty and not
      the literal "None". */
  function ShownDate(date: Option<string>): (r: Option<string>)
    ensures r.Some? <==> date.Some? && date.value != "" && date.value != "None"
    ensures r.Some? ==> r == date
  {
    if date.Some? && date.value != "" && date.value != "None" then date else None
  }

  /** One experience entry: the "title - company" line with its dates, then
      one bullet per point. */
  function ExperienceEntry(e: Experience): (r: seq<Paragraph>)
    ensures |r| == 1 + |e.points| && AllBody(r) && Spacer !in r
    ensures r[0] == TabbedLine(e.title + " - " + e.company, Some(e.dates))
    ensures BulletTexts(r) == e.points
  {
    var line := TabbedLine(e.title + " - " + e.company, Some(e.dates));
    BulletLinesTexts(e.points);
    CollectAppend([line], BulletLines(e.points), BulletText);
    [line] + BulletLines(e.points)
  }

  /** The entries in order, each followed by a spacer unless it equals `last`. */
  function ExperienceEntries(es: seq<Experience>, last: Experience): (r: seq<Paragraph>)
    ensures AllBody(r)
    decreases |es|
  {
    if |es| == 0 then []
    else ExperienceEntry(es[0]) + (if es[0] != last then [Spacer] else []) + ExperienceEntries(es[1..], last)
  }

  function ExperienceBlock(es: seq<Experience>): (r: seq<Paragraph>)
    ensures AllBody(r)
  {
    if |es| == 0 then [] else ExperienceEntries(es, es[|es| - 1])
  }

  /** One education entry: degree and dates, the school, and the coursework
      line only when there are courses. */
  function EducationEntry(e: Education): (r: seq<Paragraph>)
    ensures AllBody(r) && Spacer !in r
    ensures |r| == 2 || |r| == 3
    ensures r[0] == TabbedLine(e.degree, Some(e.dates)) && r[1] == TextLine(e.school, Inherited)
    ensures |r| == 3 <==> e.courses.Some? && e.courses.value != []
    ensures |r| == 3 ==> r[2] == LabelledLine(CourseworkCaption, e.courses.value)
  {
    [TabbedLine(e.degree, Some(e.dates)), TextLine(e.school, Inherited)]
    + (if e.courses.Some? && e.courses.value != [] then [LabelledLine(CourseworkCaption, e.courses.value)] else [])
  }

  function EducationBlock(es: seq<Education>): (r: seq<Paragraph>)
    ensures AllBody(r) && Spacer !in r
    decreases |es|
  {
    if |es| == 0 then [] else EducationEntry(es[0]) + EducationBlock(es[1..])
  }

  /** One line per skill category, in insertion order. */
  function SkillLines(skills: seq<(string, seq<string>)>): (r: seq<Paragraph>)
    ensures AllBody(r) && Spacer !in r
    decreases |skills|
  {
    if |skills| == 0 then []
    else [LabelledLine(skills[0].0 + ": ", skills[0].1)] + SkillLines(skills[1..])
  }

  /** One project: its name with the date only when shown, a technologies line
      whenever the key is present, then its points as bullets. */
  function ProjectEntry(p: Project): (r: seq<Paragraph>)
    ensures AllBody(r) && Spacer !in r
    ensures |r| == 1 + (if p.technologies.Some? then 1 else 0) + (if p.points.Some? then |p.points.value| else 0)
    ensures r[0] == TabbedLine(p.name, ShownDate(p.dates))
    ensures p.technologies.Some? ==> r[1] == LabelledLine(TechnologiesCaption, p.technologies.value)
    ensures BulletTexts(r) == p.points.GetOr([])
  {
    var head := [TabbedLine(p.name, ShownDate(p.dates))]
      + (if p.technologies.Some? then [LabelledLine(TechnologiesCaption, p.technologies.value)] else []);
    var bullets := if p.points.Some? then BulletLines(p.points.value) else [];
    BulletLinesTexts(p.points.GetOr([]));
    CollectAppend(head, bullets, BulletText);
    assert BulletTexts(head) == [] by {
      CollectNothing(head, BulletText);
    }
    head + bullets
  }

  function ProjectBlock(ps: seq<Project>): (r: seq<Paragraph>)
    ensures AllBody(r) && Spacer !in r
    decreases |ps|
  {
    if |ps| == 0 then [] else ProjectEntry(ps[0]) + ProjectBlock(ps[1..])
  }

  /** One volunteering entry: the "role - organization" line with its dates,
      then its points, if any, as bullets. */
  function VolunteeringEntry(v: Volunteering): (r: seq<Paragraph>)
    ensures AllBody(r) && Spacer !in r
    ensures |r| == 1 + |v.points.GetOr([])|
    ensures r[0] == TabbedLine(v.role + " - " + v.organization, Some(v.dates))
    ensures BulletTexts(r) == v.points.GetOr([])
  {
    var line := TabbedLine(v.role + " - " + v.organization, Some(v.dates));
    BulletLinesTexts(v.points.GetOr([]));
    CollectAppend([line], BulletLines(v.points.GetOr([])), BulletText);
    [line] + (if v.points.Some? then BulletLines(v.points.value) else [])
  }

  /** The entries in order, each followed by a spacer unless it equals `last`. */
  function VolunteeringEntries(vs: seq<Volunteering>, last: Volunteering): (r: seq<Paragraph>)
    ensures AllBody(r)
    decreases |vs|
  {
    if |vs| == 0 then []
    else VolunteeringEntry(vs[0]) + (if vs[0] != last then [Spacer] else []) + VolunteeringEntries(vs[1..], last)
  }

  function VolunteeringBlock(vs: seq<Volunteering>): (r: seq<Paragraph>)
    ensures AllBody(r)
  {
    if |vs| == 0 then [] else VolunteeringEntries(vs, vs[|vs| - 1])
  }

  /** One honor: "title - issuer" with the date only when shown, then the
      description whenever the key is present. */
  function HonorEntry(h: Honor): (r: seq<Paragraph>)
    ensures AllBody(r) && Spacer !in r
    ensures |r| == (if h.description.Some? then 2 else 1)
    ensures r[0] == TabbedLine(h.title + " - " + h.issuer, ShownDate(h.date))
    ensures h.description.Some? ==> r[1] == TextLine(h.description.value, Justify)
  {
    [TabbedLine(h.title + " - " + h.issuer, ShownDate(h.date))]
    + (if h.description.Some? then [TextLine(h.description.value, Justify)] else [])
  }

  function HonorBlock(hs: seq<Honor>): (r: seq<Paragraph>)
    ensures AllBody(r) && Spacer !in r
    decreases |hs|
  {
    if |hs| == 0 then [] else HonorEntry(hs[0]) + HonorBlock(hs[1..])
  }

  // ---------------------------------------------------------------------------
  // Sections and the document

  /** A section: its heading, then its body, when its key is present. */
  function Section<T>(value: Option<T>, title: string, spaceBefore: bool, body: T -> seq<Paragraph>): (ps: seq<Paragraph>)
    ensures ps == [] <==> value.None?
  {
    if value.Some? then SectionHeading(title, spaceBefore) + body(value.value) else []
  }

  function SummaryBody(summary: string): seq<Paragraph> {
    [TextLine(summary, Justify)]
  }

  /** Everything below the horizontal rule, section by section in fixed order;
      empty exactly when no section key is present. */
  function Sections(r: Resume): (ps: seq<Paragraph>)
    ensures ps == [] <==>
      && r.summary.None? && r.experience.None? && r.education.None? && r.skills.None?
      && r.projects.None? && r.volunteering.None? && r.honors.None?
  {
    Section(r.summary, SummaryTitle, false, SummaryBody)
    + Section(r.experience, ExperienceTitle, true, ExperienceBlock)
    + Section(r.education, EducationTitle, true, EducationBlock)
    + Section(r.skills, SkillsTitle, true, SkillLines)
    + Section(r.projects, ProjectsTitle, true, ProjectBlock)
    + Section(r.volunteering, VolunteeringTitle, true, VolunteeringBlock)
    + Section(r.honors, HonorsTitle, true, HonorBlock)
  }

  /** `create_docx`: the header, the horizontal rule (always), the sections. */
  function Render(r: Resume): (d: Result<Document, RenderError>)
    ensures d.Failure? <==> r.contact.Some? && r.contact.value.name.None?
    ensures d.Success? ==> d.value.page == LetterPage
  {
    match Header(r.contact)
    case Failure(e) => Failure(e)
    case Success(header) => Success(Document(LetterPage, header + [HorizontalLine] + Sections(r)))
  }
}
