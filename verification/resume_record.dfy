/** The structured resume the renderer consumes. A key that may be missing
    from the source's dictionary is an `Option`; keys the renderer reads
    unconditionally are plain fields. Skills keep their insertion order as a
    sequence of (category, skills) pairs.

    An experience or volunteering entry also keeps `others`: the keys of its
    dictionary that the renderer never reads, each with its value in a
    canonical printed form. They matter because the renderer compares a whole
    entry with the last one (`exp != content['experience'][-1]`), and Python's
    dictionary comparison includes every key regardless of order, as map
    equality does here. */
module ResumeRecord {
  import opened Wrappers

  datatype Contact = Contact(
    name: Option<string>,
    email: Option<string>,
    phone: Option<string>,
    location: Option<string>,
    linkedin: Option<string>)

  datatype Experience = Experience(
    title: string,
    company: string,
    dates: string,
    points: seq<string>,
    others: map<string, string>)

  datatype Education = Education(degree: string, school: string, dates: string, courses: Option<seq<string>>)

  datatype Project = Project(
    name: string,
    dates: Option<string>,
    technologies: Option<seq<string>>,
    points: Option<seq<string>>)

  datatype Volunteering = Volunteering(
    organization: string,
    role: string,
    dates: string,
    points: Option<seq<string>>,
    others: map<string, string>)

  datatype Honor = Honor(title: string, issuer: string, date: Option<string>, description: Option<string>)

  datatype Resume = Resume(
    contact: Option<Contact>,
    summary: Option<string>,
    experience: Option<seq<Experience>>,
    education: Option<seq<Education>>,
    skills: Option<seq<(string, seq<string>)>>,
    projects: Option<seq<Project>>,
    volunteering: Option<seq<Volunteering>>,
    honors: Option<seq<Honor>>)
}
