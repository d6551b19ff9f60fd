/** Properties of the renderer in DocumentHandler: section order and omission,
    the single horizontal rule, spacer placement, bullets and header lines. */
module DocumentProperties {
  import opened Wrappers
  import opened Text
  import opened Docx
  import opened ResumeRecord
  import opened DocumentHandler

  /** The headings a record calls for: one per present key, in the fixed
      order, whatever the key's value (an empty list included). */
  function ExpectedHeadings(r: Resume): seq<string> {
    (if r.summary.Some? then [SummaryTitle] else [])
    + (if r.experience.Some? then [ExperienceTitle] else [])
    + (if r.education.Some? then [EducationTitle] else [])
    + (if r.skills.Some? then [SkillsTitle] else [])
    + (if r.projects.Some? then [ProjectsTitle] else [])
    + (if r.volunteering.Some? then [VolunteeringTitle] else [])
    + (if r.honors.Some? then [HonorsTitle] else [])
  }

  /** A heading other than the summary's. */
  predicate NeedsSpacer(p: Paragraph) {
    IsHeading(p) && p.runs[0].text != SummaryTitle
  }

  /** Every heading of `ps` other than the summary's directly follows a
      spacer, `prev` being the paragraph just before `ps`. */
  predicate SpacedFrom(prev: Paragraph, ps: seq<Paragraph>)
    decreases |ps|
  {
    |ps| == 0 || ((NeedsSpacer(ps[0]) ==> prev == Spacer) && SpacedFrom(ps[0], ps[1..]))
  }

  /** Every heading other than the summary's directly follows a spacer. */
  predicate SpacedHeadings(ps: seq<Paragraph>) {
    |ps| == 0 || (!NeedsSpacer(ps[0]) && SpacedFrom(ps[0], ps[1..]))
  }

  lemma {:induction false} SpacedFromMeans(prev: Paragraph, ps: seq<Paragraph>)
    requires SpacedFrom(prev, ps)
    ensures forall i :: 0 < i < |ps| && NeedsSpacer(ps[i]) ==> ps[i - 1] == Spacer
    decreases |ps|
  {
    if |ps| > 0 {
      SpacedFromMeans(ps[0], ps[1..]);
      forall i | 0 < i < |ps| && NeedsSpacer(ps[i])
        ensures ps[i - 1] == Spacer
      {
        assert ps[i] == ps[1..][i - 1];
        if i > 1 {
          assert ps[i - 1] == ps[1..][i - 2];
        }
      }
    }
  }

  /** The recursive definition says what its name says: a heading at index i,
      other than the summary's, has a spacer at index i - 1. */
  lemma SpacedHeadingsMeans(ps: seq<Paragraph>)
    requires SpacedHeadings(ps)
    ensures forall i :: 0 <= i < |ps| && NeedsSpacer(ps[i]) ==> 0 < i && ps[i - 1] == Spacer
  {
    if |ps| > 0 {
      SpacedFromMeans(ps[0], ps[1..]);
      forall i | 0 < i < |ps| && NeedsSpacer(ps[i])
        ensures ps[i - 1] == Spacer
      {
        assert ps[i] == ps[1..][i - 1];
        if i > 1 {
          assert ps[i - 1] == ps[1..][i - 2];
        }
      }
    }
  }

  lemma {:induction false} SpacedFromAppend(prev: Paragraph, a: seq<Paragraph>, b: seq<Paragraph>)
    requires SpacedFrom(prev, a) && SpacedHeadings(b)
    ensures SpacedFrom(prev, a + b)
    decreases |a|
  {
    if |a| == 0 {
      assert a + b == b;
    } else {
      SpacedFromAppend(a[0], a[1..], b);
      assert (a + b)[0] == a[0];
      assert (a + b)[1..] == a[1..] + b;
    }
  }

  lemma SpacedAppend(a: seq<Paragraph>, b: seq<Paragraph>)
    requires SpacedHeadings(a) && SpacedHeadings(b)
    ensures SpacedHeadings(a + b)
  {
    if |a| == 0 {
      assert a + b == b;
    } else {
      SpacedFromAppend(a[0], a[1..], b);
      assert (a + b)[0] == a[0];
      assert (a + b)[1..] == a[1..] + b;
    }
  }

  lemma {:induction false} AllBodySpacedFrom(prev: Paragraph, ps: seq<Paragraph>)
    requires AllBody(ps)
    ensures SpacedFrom(prev, ps)
    decreases |ps|
  {
    if |ps| > 0 {
      assert ps[0] in ps;
      AllBodySpacedFrom(ps[0], ps[1..]);
    }
  }

  lemma AllBodySpaced(ps: seq<Paragraph>)
    requires AllBody(ps)
    ensures SpacedHeadings(ps)
  {
    if |ps| > 0 {
      assert ps[0] in ps;
      AllBodySpacedFrom(ps[0], ps[1..]);
    }
  }

  lemma TitlesUpperCase()
    ensures IsUpperCase(SummaryTitle) && IsUpperCase(ExperienceTitle) && IsUpperCase(EducationTitle)
    ensures IsUpperCase(SkillsTitle) && IsUpperCase(ProjectsTitle) && IsUpperCase(VolunteeringTitle)
    ensures IsUpperCase(HonorsTitle)
  {
  }

  /** A stretch of paragraphs whose headings are `hs`, which holds no rule and
      whose non-summary headings each follow a spacer. */
  predicate Shaped(ps: seq<Paragraph>, hs: seq<string>) {
    Headings(ps) == hs && BorderCount(ps) == 0 && SpacedHeadings(ps)
  }

  lemma CollectSingle<T>(p: Paragraph, f: Paragraph -> seq<T>)
    ensures Collect([p], f) == f(p)
  {
    assert [p][1..] == [];
  }

  lemma ShapedAppend(a: seq<Paragraph>, ha: seq<string>, b: seq<Paragraph>, hb: seq<string>)
    requires Shaped(a, ha) && Shaped(b, hb)
    ensures Shaped(a + b, ha + hb)
  {
    CollectAppend(a, b, HeadingText);
    CollectAppend(a, b, BorderMark);
    SpacedAppend(a, b);
  }

  lemma ShapedChain(p1: seq<Paragraph>, h1: seq<string>, p2: seq<Paragraph>, h2: seq<string>,
                    p3: seq<Paragraph>, h3: seq<string>, p4: seq<Paragraph>, h4: seq<string>,
                    p5: seq<Paragraph>, h5: seq<string>)
    requires Shaped(p1, h1) && Shaped(p2, h2) && Shaped(p3, h3) && Shaped(p4, h4) && Shaped(p5, h5)
    ensures Shaped(p1 + p2 + p3 + p4 + p5, h1 + h2 + h3 + h4 + h5)
  {
    ShapedAppend(p1, h1, p2, h2);
    ShapedAppend(p1 + p2, h1 + h2, p3, h3);
    ShapedAppend(p1 + p2 + p3, h1 + h2 + h3, p4, h4);
    ShapedAppend(p1 + p2 + p3 + p4, h1 + h2 + h3 + h4, p5, h5);
  }

  /** A section contributes its title as its only heading when its key is
      present and nothing when it is absent; it holds no rule, and its heading
      follows a spacer unless it is the summary's. */
  lemma SectionShape<T>(value: Option<T>, title: string, spaceBefore: bool, body: T -> seq<Paragraph>)
    requires IsUpperCase(title)
    requires spaceBefore || title == SummaryTitle
    requires value.Some? ==> AllBody(body(value.value))
    ensures Shaped(Section(value, title, spaceBefore, body), if value.Some? then [title] else [])
  {
    if value.Some? {
      var h := SectionHeading(title, spaceBefore);
      var b := body(value.value);
      UpperFixesUpperCase(title);
      BodyHasNoHeadingOrBorder(b);
      AllBodySpaced(b);
      var hd := h[|h| - 1];
      CollectSingle(hd, HeadingText);
      CollectSingle(hd, BorderMark);
      if spaceBefore {
        assert h == [Spacer] + [hd];
        CollectSingle(Spacer, HeadingText);
        CollectSingle(Spacer, BorderMark);
        CollectAppend([Spacer], [hd], HeadingText);
        CollectAppend([Spacer], [hd], BorderMark);
        assert [Spacer, hd][1..] == [hd];
      } else {
        assert h == [hd];
      }
      assert [hd][1..] == [];
      assert Shaped(h, [title]);
      assert Shaped(b, []);
      ShapedAppend(h, [title], b, []);
    }
  }

  lemma FrontSectionsShape(r: Resume)
    ensures Shaped(Section(r.summary, SummaryTitle, false, SummaryBody)
                   + Section(r.experience, ExperienceTitle, true, ExperienceBlock)
                   + Section(r.education, EducationTitle, true, EducationBlock),
                   (if r.summary.Some? then [SummaryTitle] else [])
                   + (if r.experience.Some? then [ExperienceTitle] else [])
                   + (if r.education.Some? then [EducationTitle] else []))
  {
    TitlesUpperCase();
    var s1 := Section(r.summary, SummaryTitle, false, SummaryBody);
    var s2 := Section(r.experience, ExperienceTitle, true, ExperienceBlock);
    var s3 := Section(r.education, EducationTitle, true, EducationBlock);
    SectionShape(r.summary, SummaryTitle, false, SummaryBody);
    SectionShape(r.experience, ExperienceTitle, true, ExperienceBlock);
    SectionShape(r.education, EducationTitle, true, EducationBlock);
    var h1: seq<string> := if r.summary.Some? then [SummaryTitle] else [];
    var h2: seq<string> := if r.experience.Some? then [ExperienceTitle] else [];
    var h3: seq<string> := if r.education.Some? then [EducationTitle] else [];
    ShapedAppend(s1, h1, s2, h2);
    ShapedAppend(s1 + s2, h1 + h2, s3, h3);
  }

  lemma BackSectionsShape(r: Resume)
    ensures Shaped(Section(r.skills, SkillsTitle, true, SkillLines),
                   if r.skills.Some? then [SkillsTitle] else [])
    ensures Shaped(Section(r.projects, ProjectsTitle, true, ProjectBlock),
                   if r.projects.Some? then [ProjectsTitle] else [])
    ensures Shaped(Section(r.volunteering, VolunteeringTitle, true, VolunteeringBlock),
                   if r.volunteering.Some? then [VolunteeringTitle] else [])
    ensures Shaped(Section(r.honors, HonorsTitle, true, HonorBlock),
                   if r.honors.Some? then [HonorsTitle] else [])
  {
    TitlesUpperCase();
    SectionShape(r.skills, SkillsTitle, true, SkillLines);
    SectionShape(r.projects, ProjectsTitle, true, ProjectBlock);
    SectionShape(r.volunteering, VolunteeringTitle, true, VolunteeringBlock);
    SectionShape(r.honors, HonorsTitle, true, HonorBlock);
  }

  lemma SectionsShape(r: Resume)
    ensures Shaped(Sections(r), ExpectedHeadings(r))
  {
    var front := Section(r.summary, SummaryTitle, false, SummaryBody)
                 + Section(r.experience, ExperienceTitle, true, ExperienceBlock)
                 + Section(r.education, EducationTitle, true, EducationBlock);
    var hf: seq<string> := (if r.summary.Some? then [SummaryTitle] else [])
                 + (if r.experience.Some? then [ExperienceTitle] else [])
                 + (if r.education.Some? then [EducationTitle] else []);
    var s4 := Section(r.skills, SkillsTitle, true, SkillLines);
    var s5 := Section(r.projects, ProjectsTitle, true, ProjectBlock);
    var s6 := Section(r.volunteering, VolunteeringTitle, true, VolunteeringBlock);
    var s7 := Section(r.honors, HonorsTitle, true, HonorBlock);
    var h4: seq<string> := if r.skills.Some? then [SkillsTitle] else [];
    var h5: seq<string> := if r.projects.Some? then [ProjectsTitle] else [];
    var h6: seq<string> := if r.volunteering.Some? then [VolunteeringTitle] else [];
    var h7: seq<string> := if r.honors.Some? then [HonorsTitle] else [];
    FrontSectionsShape(r);
    BackSectionsShape(r);
    ShapedChain(front, hf, s4, h4, s5, h5, s6, h6, s7, h7);
  }

  /** Order and omission law: the rendered headings are exactly the titles of
      the present keys, in the fixed section order. */
  lemma RenderHeadings(r: Resume)
    requires Render(r).Success?
    ensures Headings(Render(r).value.paragraphs) == ExpectedHeadings(r)
  {
    var header := Header(r.contact).value;
    SectionsShape(r);
    BodyHasNoHeadingOrBorder(header);
    CollectAppend(header, [HorizontalLine], HeadingText);
    CollectAppend(header + [HorizontalLine], Sections(r), HeadingText);
  }

  /** The horizontal rule is emitted exactly once, right after the name and
      contact lines when `contact` is present and first otherwise; the summary
      heading, when present, directly follows it. */
  lemma RenderRule(r: Resume)
    requires Render(r).Success?
    ensures var ps := Render(r).value.paragraphs; var k := if r.contact.Some? then 2 else 0;
      && BorderCount(ps) == 1
      && |ps| > k && ps[k] == HorizontalLine
      && (r.summary.Some? ==> |ps| > k + 1 && IsHeading(ps[k + 1]) && ps[k + 1].runs[0].text == SummaryTitle)
  {
    var header := Header(r.contact).value;
    var ps := Render(r).value.paragraphs;
    SectionsShape(r);
    BodyHasNoHeadingOrBorder(header);
    CollectAppend(header, [HorizontalLine], BorderMark);
    CollectAppend(header + [HorizontalLine], Sections(r), BorderMark);
    assert ps == header + [HorizontalLine] + Sections(r);
    assert ps[|header|] == HorizontalLine;
    if r.summary.Some? {
      UpperFixesUpperCase(SummaryTitle);
      assert ps[|header| + 1] == Sections(r)[0];
    }
  }

  /** Every heading except the summary's is preceded by a spacer paragraph,
      whether or not a summary is present. */
  lemma RenderSpacedHeadings(r: Resume)
    requires Render(r).Success?
    ensures var ps := Render(r).value.paragraphs;
      forall i :: 0 <= i < |ps| && NeedsSpacer(ps[i]) ==> 0 < i && ps[i - 1] == Spacer
  {
    var header := Header(r.contact).value;
    SectionsShape(r);
    AllBodySpaced(header);
    assert SpacedHeadings([HorizontalLine]);
    SpacedAppend(header, [HorizontalLine]);
    SpacedAppend(header + [HorizontalLine], Sections(r));
    SpacedHeadingsMeans(Render(r).value.paragraphs);
  }

  // ---------------------------------------------------------------------------
  // Spacers and bullets inside sections

  function AllExperiencePoints(es: seq<Experience>): seq<string>
    decreases |es|
  {
    if |es| == 0 then [] else es[0].points + AllExperiencePoints(es[1..])
  }

  lemma NoSpacers(ps: seq<Paragraph>)
    requires Spacer !in ps
    ensures SpacerCount(ps) == 0
  {
    CollectNothing(ps, SpacerMark);
  }

  lemma GapSpacers(gap: seq<Paragraph>, differs: bool)
    requires gap == if differs then [Spacer] else []
    ensures SpacerCount(gap) == (if differs then 1 else 0)
    ensures BulletTexts(gap) == []
  {
    if differs {
      CollectSingle(Spacer, SpacerMark);
      CollectSingle(Spacer, BulletText);
    }
  }

  lemma MultisetCons<T>(xs: seq<T>, x: T)
    requires |xs| > 0
    ensures multiset(xs)[x] == (if xs[0] == x then 1 else 0) + multiset(xs[1..])[x]
  {
    assert xs == [xs[0]] + xs[1..];
  }

  lemma MultisetLast<T>(xs: seq<T>)
    requires |xs| > 0
    ensures xs[|xs| - 1] !in xs[..|xs| - 1] ==> multiset(xs)[xs[|xs| - 1]] == 1
  {
    var last := xs[|xs| - 1];
    assert xs == xs[..|xs| - 1] + [last];
    assert multiset(xs) == multiset(xs[..|xs| - 1]) + multiset{last};
  }

  lemma SplitAt<T>(xs: seq<T>, i: nat)
    requires i < |xs|
    ensures xs == xs[..i] + ([xs[i]] + xs[i + 1..])
  {
  }

  lemma ConcatAssoc<T>(a: seq<T>, b: seq<T>, c: seq<T>, d: seq<T>)
    ensures a + (b + c + d) == a + b + c + d
  {
  }

  /** Paragraph `p` of `ps` exists and is a spacer. */
  predicate SpacerAt(ps: seq<Paragraph>, p: int) {
    0 <= p < |ps| && ps[p] == Spacer
  }

  /** The entries of `a + b` render as those of `a` followed by those of `b`. */
  lemma {:induction false} ExperienceEntriesAppend(a: seq<Experience>, b: seq<Experience>, last: Experience)
    ensures ExperienceEntries(a + b, last) == ExperienceEntries(a, last) + ExperienceEntries(b, last)
    decreases |a|
  {
    if |a| == 0 {
      assert a + b == b;
    } else {
      assert (a + b)[0] == a[0];
      assert (a + b)[1..] == a[1..] + b;
      ExperienceEntriesAppend(a[1..], b, last);
    }
  }

  /** Where entry i's paragraphs end in `ExperienceEntries(es, last)`. */
  function ExperienceEntryEnd(es: seq<Experience>, last: Experience, i: nat): nat
    requires i < |es|
  {
    |ExperienceEntries(es[..i], last)| + |ExperienceEntry(es[i])|
  }

  lemma {:induction false} ExperienceEntriesSplit(es: seq<Experience>, last: Experience, i: nat)
    requires i < |es|
    ensures ExperienceEntries(es, last)
         == ExperienceEntries(es[..i], last) + ExperienceEntry(es[i])
            + (if es[i] != last then [Spacer] else []) + ExperienceEntries(es[i + 1..], last)
  {
    var before := es[..i];
    var after := es[i + 1..];
    var rest := [es[i]] + after;
    var gap: seq<Paragraph> := if es[i] != last then [Spacer] else [];
    assert ExperienceEntries(es, last) == ExperienceEntries(before, last) + ExperienceEntries(rest, last) by {
      SplitAt(es, i);
      ExperienceEntriesAppend(before, rest, last);
    }
    assert ExperienceEntries(rest, last) == ExperienceEntry(es[i]) + gap + ExperienceEntries(after, last) by {
      ExperienceEntriesAppend([es[i]], after, last);
      ExperienceEntriesSingle(es[i], last);
    }
    ConcatAssoc(ExperienceEntries(before, last), ExperienceEntry(es[i]), gap, ExperienceEntries(after, last));
  }

  lemma ExperienceEntriesSingle(x: Experience, last: Experience)
    ensures ExperienceEntries([x], last) == ExperienceEntry(x) + (if x != last then [Spacer] else [])
  {
    assert [x][1..] == [];
  }

  /** Entry i is rendered in place, between the entries before it and those
      after it, and followed by a spacer exactly when it differs from `last`:
      the paragraph right after its bullets is a spacer exactly then. */
  lemma {:induction false} ExperienceEntryAt(es: seq<Experience>, last: Experience, i: nat)
    requires i < |es|
    ensures ExperienceEntries(es, last)
         == ExperienceEntries(es[..i], last) + ExperienceEntry(es[i])
            + (if es[i] != last then [Spacer] else []) + ExperienceEntries(es[i + 1..], last)
    ensures SpacerAt(ExperienceEntries(es, last), ExperienceEntryEnd(es, last, i)) <==> es[i] != last
  {
    ExperienceEntriesSplit(es, last, i);
    var before := ExperienceEntries(es[..i], last);
    var entry := ExperienceEntry(es[i]);
    var after := ExperienceEntries(es[i + 1..], last);
    var r := ExperienceEntries(es, last);
    if es[i] == last && |after| > 0 {
      assert es[i + 1..][0] == es[i + 1];
      assert after[0] == ExperienceEntry(es[i + 1])[0];
      assert r[|before| + |entry|] == after[0];
    }
  }

  /** The same laws for volunteering entries. */
  lemma {:induction false} VolunteeringEntriesAppend(a: seq<Volunteering>, b: seq<Volunteering>, last: Volunteering)
    ensures VolunteeringEntries(a + b, last) == VolunteeringEntries(a, last) + VolunteeringEntries(b, last)
    decreases |a|
  {
    if |a| == 0 {
      assert a + b == b;
    } else {
      assert (a + b)[0] == a[0];
      assert (a + b)[1..] == a[1..] + b;
      VolunteeringEntriesAppend(a[1..], b, last);
    }
  }

  function VolunteeringEntryEnd(vs: seq<Volunteering>, last: Volunteering, i: nat): nat
    requires i < |vs|
  {
    |VolunteeringEntries(vs[..i], last)| + |VolunteeringEntry(vs[i])|
  }

  lemma {:induction false} VolunteeringEntriesSplit(vs: seq<Volunteering>, last: Volunteering, i: nat)
    requires i < |vs|
    ensures VolunteeringEntries(vs, last)
         == VolunteeringEntries(vs[..i], last) + VolunteeringEntry(vs[i])
            + (if vs[i] != last then [Spacer] else []) + VolunteeringEntries(vs[i + 1..], last)
  {
    var before := vs[..i];
    var after := vs[i + 1..];
    var rest := [vs[i]] + after;
    var gap: seq<Paragraph> := if vs[i] != last then [Spacer] else [];
    assert VolunteeringEntries(vs, last) == VolunteeringEntries(before, last) + VolunteeringEntries(rest, last) by {
      SplitAt(vs, i);
      VolunteeringEntriesAppend(before, rest, last);
    }
    assert VolunteeringEntries(rest, last) == VolunteeringEntry(vs[i]) + gap + VolunteeringEntries(after, last) by {
      VolunteeringEntriesAppend([vs[i]], after, last);
      VolunteeringEntriesSingle(vs[i], last);
    }
    ConcatAssoc(VolunteeringEntries(before, last), VolunteeringEntry(vs[i]), gap, VolunteeringEntries(after, last));
  }

  lemma VolunteeringEntriesSingle(x: Volunteering, last: Volunteering)
    ensures VolunteeringEntries([x], last) == VolunteeringEntry(x) + (if x != last then [Spacer] else [])
  {
    assert [x][1..] == [];
  }

  lemma {:induction false} VolunteeringEntryAt(vs: seq<Volunteering>, last: Volunteering, i: nat)
    requires i < |vs|
    ensures VolunteeringEntries(vs, last)
         == VolunteeringEntries(vs[..i], last) + VolunteeringEntry(vs[i])
            + (if vs[i] != last then [Spacer] else []) + VolunteeringEntries(vs[i + 1..], last)
    ensures SpacerAt(VolunteeringEntries(vs, last), VolunteeringEntryEnd(vs, last, i)) <==> vs[i] != last
  {
    VolunteeringEntriesSplit(vs, last, i);
    var before := VolunteeringEntries(vs[..i], last);
    var entry := VolunteeringEntry(vs[i]);
    var after := VolunteeringEntries(vs[i + 1..], last);
    var r := VolunteeringEntries(vs, last);
    if vs[i] == last && |after| > 0 {
      assert vs[i + 1..][0] == vs[i + 1];
      assert after[0] == VolunteeringEntry(vs[i + 1])[0];
      assert r[|before| + |entry|] == after[0];
    }
  }

  /** A spacer follows each entry that differs from `last`: the number of
      spacers is the number of entries minus the occurrences of `last`. */
  lemma {:induction false} ExperienceEntriesSpacers(es: seq<Experience>, last: Experience)
    ensures SpacerCount(ExperienceEntries(es, last)) == |es| - multiset(es)[last]
    ensures forall i :: 0 <= i < |es| ==>
      (SpacerAt(ExperienceEntries(es, last), ExperienceEntryEnd(es, last, i)) <==> es[i] != last)
    decreases |es|
  {
    forall i | 0 <= i < |es|
      ensures SpacerAt(ExperienceEntries(es, last), ExperienceEntryEnd(es, last, i)) <==> es[i] != last
    {
      ExperienceEntryAt(es, last, i);
    }
    if |es| > 0 {
      var entry := ExperienceEntry(es[0]);
      var gap: seq<Paragraph> := if es[0] != last then [Spacer] else [];
      var rest := ExperienceEntries(es[1..], last);
      assert ExperienceEntries(es, last) == entry + gap + rest;
      ExperienceEntriesSpacers(es[1..], last);
      NoSpacers(entry);
      GapSpacers(gap, es[0] != last);
      CollectAppend(entry, gap, SpacerMark);
      CollectAppend(entry + gap, rest, SpacerMark);
      MultisetCons(es, last);
    }
  }

  /** The bullets of the experience entries are all their points, entry by
      entry, in order. */
  lemma {:induction false} ExperienceEntriesBullets(es: seq<Experience>, last: Experience)
    ensures BulletTexts(ExperienceEntries(es, last)) == AllExperiencePoints(es)
    decreases |es|
  {
    if |es| > 0 {
      var entry := ExperienceEntry(es[0]);
      var gap: seq<Paragraph> := if es[0] != last then [Spacer] else [];
      var rest := ExperienceEntries(es[1..], last);
      assert ExperienceEntries(es, last) == entry + gap + rest;
      ExperienceEntriesBullets(es[1..], last);
      GapSpacers(gap, es[0] != last);
      CollectAppend(entry, gap, BulletText);
      CollectAppend(entry + gap, rest, BulletText);
    }
  }

  /** No spacer follows the last experience entry nor any earlier entry equal
      to it; with distinct entries there are exactly |es| - 1 spacers. The
      bullets are all the points, in order. */
  lemma {:induction false} ExperienceSpacers(es: seq<Experience>)
    requires |es| > 0
    ensures SpacerCount(ExperienceBlock(es)) == |es| - multiset(es)[es[|es| - 1]]
    ensures es[|es| - 1] !in es[..|es| - 1] ==> SpacerCount(ExperienceBlock(es)) == |es| - 1
    ensures BulletTexts(ExperienceBlock(es)) == AllExperiencePoints(es)
    ensures forall i :: 0 <= i < |es| ==>
      (SpacerAt(ExperienceBlock(es), ExperienceEntryEnd(es, es[|es| - 1], i)) <==> es[i] != es[|es| - 1])
    ensures |ExperienceBlock(es)| > 0 && !SpacerAt(ExperienceBlock(es), |ExperienceBlock(es)| - 1)
  {
    var last := es[|es| - 1];
    ExperienceEntriesSpacers(es, last);
    ExperienceEntriesBullets(es, last);
    MultisetLast(es);
    ExperienceBlockEnd(es);
  }

  /** The block ends with the last entry's own paragraphs, not a spacer. */
  lemma {:induction false} ExperienceBlockEnd(es: seq<Experience>)
    requires |es| > 0
    ensures |ExperienceBlock(es)| > 0 && !SpacerAt(ExperienceBlock(es), |ExperienceBlock(es)| - 1)
  {
    var n := |es| - 1;
    var last := es[n];
    var entry := ExperienceEntry(last);
    var before := ExperienceEntries(es[..n], last);
    assert ExperienceBlock(es) == before + entry by {
      ExperienceEntriesSplit(es, last, n);
      assert es[n + 1..] == [];
    }
    assert ExperienceBlock(es)[|ExperienceBlock(es)| - 1] == entry[|entry| - 1];
  }

  function AllVolunteeringPoints(vs: seq<Volunteering>): seq<string>
    decreases |vs|
  {
    if |vs| == 0 then [] else vs[0].points.GetOr([]) + AllVolunteeringPoints(vs[1..])
  }

  /** The volunteering section follows the experience section's spacer rule. */
  lemma {:induction false} VolunteeringEntriesSpacers(vs: seq<Volunteering>, last: Volunteering)
    ensures SpacerCount(VolunteeringEntries(vs, last)) == |vs| - multiset(vs)[last]
    ensures forall i :: 0 <= i < |vs| ==>
      (SpacerAt(VolunteeringEntries(vs, last), VolunteeringEntryEnd(vs, last, i)) <==> vs[i] != last)
    decreases |vs|
  {
    forall i | 0 <= i < |vs|
      ensures SpacerAt(VolunteeringEntries(vs, last), VolunteeringEntryEnd(vs, last, i)) <==> vs[i] != last
    {
      VolunteeringEntryAt(vs, last, i);
    }
    if |vs| > 0 {
      var entry := VolunteeringEntry(vs[0]);
      var gap: seq<Paragraph> := if vs[0] != last then [Spacer] else [];
      var rest := VolunteeringEntries(vs[1..], last);
      assert VolunteeringEntries(vs, last) == entry + gap + rest;
      VolunteeringEntriesSpacers(vs[1..], last);
      NoSpacers(entry);
      GapSpacers(gap, vs[0] != last);
      CollectAppend(entry, gap, SpacerMark);
      CollectAppend(entry + gap, rest, SpacerMark);
      MultisetCons(vs, last);
    }
  }

  /** An entry without points contributes no bullet. */
  lemma {:induction false} VolunteeringEntriesBullets(vs: seq<Volunteering>, last: Volunteering)
    ensures BulletTexts(VolunteeringEntries(vs, last)) == AllVolunteeringPoints(vs)
    decreases |vs|
  {
    if |vs| > 0 {
      var entry := VolunteeringEntry(vs[0]);
      var gap: seq<Paragraph> := if vs[0] != last then [Spacer] else [];
      var rest := VolunteeringEntries(vs[1..], last);
      assert VolunteeringEntries(vs, last) == entry + gap + rest;
      VolunteeringEntriesBullets(vs[1..], last);
      GapSpacers(gap, vs[0] != last);
      CollectAppend(entry, gap, BulletText);
      CollectAppend(entry + gap, rest, BulletText);
    }
  }

  lemma {:induction false} VolunteeringSpacers(vs: seq<Volunteering>)
    requires |vs| > 0
    ensures SpacerCount(VolunteeringBlock(vs)) == |vs| - multiset(vs)[vs[|vs| - 1]]
    ensures vs[|vs| - 1] !in vs[..|vs| - 1] ==> SpacerCount(VolunteeringBlock(vs)) == |vs| - 1
    ensures BulletTexts(VolunteeringBlock(vs)) == AllVolunteeringPoints(vs)
    ensures forall i :: 0 <= i < |vs| ==>
      (SpacerAt(VolunteeringBlock(vs), VolunteeringEntryEnd(vs, vs[|vs| - 1], i)) <==> vs[i] != vs[|vs| - 1])
    ensures |VolunteeringBlock(vs)| > 0 && !SpacerAt(VolunteeringBlock(vs), |VolunteeringBlock(vs)| - 1)
  {
    var last := vs[|vs| - 1];
    VolunteeringEntriesSpacers(vs, last);
    VolunteeringEntriesBullets(vs, last);
    MultisetLast(vs);
    VolunteeringBlockEnd(vs);
  }

  /** The block ends with the last entry's own paragraphs, not a spacer. */
  lemma {:induction false} VolunteeringBlockEnd(vs: seq<Volunteering>)
    requires |vs| > 0
    ensures |VolunteeringBlock(vs)| > 0 && !SpacerAt(VolunteeringBlock(vs), |VolunteeringBlock(vs)| - 1)
  {
    var n := |vs| - 1;
    var last := vs[n];
    var entry := VolunteeringEntry(last);
    var before := VolunteeringEntries(vs[..n], last);
    assert VolunteeringBlock(vs) == before + entry by {
      VolunteeringEntriesSplit(vs, last, n);
      assert vs[n + 1..] == [];
    }
    assert VolunteeringBlock(vs)[|VolunteeringBlock(vs)| - 1] == entry[|entry| - 1];
  }

  /** Entries are compared whole, unread keys included: two entries that
      differ only in a key the renderer never shows are not copies, so the
      first is still followed by a spacer. */
  lemma UnreadKeyDistinguishes(title: string, company: string, dates: string,
                               role: string, key: string, value: string)
    ensures SpacerCount(ExperienceBlock([Experience(title, company, dates, [], map[key := value]),
                                         Experience(title, company, dates, [], map[])])) == 1
    ensures SpacerCount(VolunteeringBlock([Volunteering(company, role, dates, None, map[key := value]),
                                           Volunteering(company, role, dates, None, map[])])) == 1
  {
    var e1 := Experience(title, company, dates, [], map[key := value]);
    var e2 := Experience(title, company, dates, [], map[]);
    assert e1 != e2 by {
      assert key in e1.others;
    }
    ExperienceSpacers([e1, e2]);
    assert [e1, e2][..1] == [e1];
    var v1 := Volunteering(company, role, dates, None, map[key := value]);
    var v2 := Volunteering(company, role, dates, None, map[]);
    assert v1 != v2 by {
      assert key in v1.others;
    }
    VolunteeringSpacers([v1, v2]);
    assert [v1, v2][..1] == [v1];
  }

  /** Education, skills, projects and honors put no spacer between entries. */
  lemma NoSpacersBetweenEntries(r: Resume)
    ensures r.education.Some? ==> SpacerCount(EducationBlock(r.education.value)) == 0
    ensures r.skills.Some? ==> SpacerCount(SkillLines(r.skills.value)) == 0
    ensures r.projects.Some? ==> SpacerCount(ProjectBlock(r.projects.value)) == 0
    ensures r.honors.Some? ==> SpacerCount(HonorBlock(r.honors.value)) == 0
  {
    if r.education.Some? { NoSpacers(EducationBlock(r.education.value)); }
    if r.skills.Some? { NoSpacers(SkillLines(r.skills.value)); }
    if r.projects.Some? { NoSpacers(ProjectBlock(r.projects.value)); }
    if r.honors.Some? { NoSpacers(HonorBlock(r.honors.value)); }
  }

  /** One line per skill category, in insertion order, reading
      "Category: skill, skill, ...". */
  lemma {:induction false} SkillLinesText(skills: seq<(string, seq<string>)>)
    ensures |SkillLines(skills)| == |skills|
    ensures forall i :: 0 <= i < |skills| ==>
      RunsText(SkillLines(skills)[i].runs) == skills[i].0 + ": " + Join(skills[i].1, ", ")
    decreases |skills|
  {
    if |skills| > 0 {
      SkillLinesText(skills[1..]);
      forall i | 0 <= i < |skills|
        ensures RunsText(SkillLines(skills)[i].runs) == skills[i].0 + ": " + Join(skills[i].1, ", ")
      {
        if i > 0 {
          assert SkillLines(skills)[i] == SkillLines(skills[1..])[i - 1];
        } else {
          var runs := SkillLines(skills)[0].runs;
          assert RunsText(runs) == runs[0].text + RunsText(runs[1..]);
          assert RunsText(runs[1..]) == runs[1].text + RunsText(runs[2..]);
        }
      }
    }
  }

  // ---------------------------------------------------------------------------
  // Header

  /** The contact line with all four fields. */
  lemma ContactLineAll(name: string, email: string, phone: string, location: string, linkedin: string)
    ensures ContactLine(Contact(Some(name), Some(email), Some(phone), Some(location), Some(linkedin)))
         == email + " | " + phone + " | " + location + " | " + linkedin
  {
    var parts := [email, phone, location, linkedin];
    var sep := " | ";
    assert [email] + [phone] + [location] + [linkedin] == parts;
    assert parts[1..] == [phone, location, linkedin];
    assert parts[1..][1..] == [location, linkedin];
    assert parts[1..][1..][1..] == [linkedin];
    assert Join([location, linkedin], sep) == location + sep + linkedin;
    assert Join([phone, location, linkedin], sep) == phone + sep + (location + sep + linkedin);
    assert Join(parts, sep) == email + sep + (phone + sep + (location + sep + linkedin));
  }

  /** With no field present the contact line is still emitted, empty; with one
      field it is that field alone; absent fields leave no empty slot between
      the present ones. */
  lemma ContactLineFew(c: Contact)
    ensures c.email.None? && c.phone.None? && c.location.None? && c.linkedin.None? ==> ContactLine(c) == ""
    ensures c.email.Some? && c.phone.None? && c.location.None? && c.linkedin.None? ==> ContactLine(c) == c.email.value
    ensures c.email.None? && c.phone.Some? && c.location.None? && c.linkedin.None? ==> ContactLine(c) == c.phone.value
    ensures c.email.None? && c.phone.None? && c.location.Some? && c.linkedin.None? ==> ContactLine(c) == c.location.value
    ensures c.email.None? && c.phone.None? && c.location.None? && c.linkedin.Some? ==> ContactLine(c) == c.linkedin.value
    ensures c.email.Some? && c.phone.None? && c.location.None? && c.linkedin.Some? ==>
      ContactLine(c) == c.email.value + " | " + c.linkedin.value
    ensures c.email.None? && c.phone.Some? && c.location.Some? && c.linkedin.Some? ==>
      ContactLine(c) == c.phone.value + " | " + c.location.value + " | " + c.linkedin.value
  {
  }

  /** Adding a linkedin to a contact without one appends it to the line
      built from the other fields, after " | " unless no field precedes it. */
  lemma ContactLineAddLinkedin(c: Contact, linkedin: string)
    requires c.linkedin.None?
    ensures ContactLine(c.(linkedin := Some(linkedin)))
         == if c.email.None? && c.phone.None? && c.location.None? then linkedin
            else ContactLine(c) + " | " + linkedin
  {
  }

  /** A contact without a name makes rendering fail; without a contact the
      document starts with the rule. */
  lemma RenderHeader(r: Resume)
    ensures r.contact.Some? && r.contact.value.name.None? ==> Render(r) == Failure(MissingContactName)
    ensures r.contact.None? ==> Render(r).Success? && Render(r).value.paragraphs[0] == HorizontalLine
    ensures r.contact.Some? && r.contact.value.name.Some? ==>
      Render(r).Success? && Render(r).value.paragraphs[0].runs == [Run(r.contact.value.name.value, true, Some(NameSize))]
      && Render(r).value.paragraphs[0].alignment == Center
      && Render(r).value.paragraphs[1].runs == [Run(ContactLine(r.contact.value), false, Some(BodySize))]
      && Render(r).value.paragraphs[1].alignment == Center
  {
  }

  // ---------------------------------------------------------------------------
  // A whole document

  /** A name and a single experience entry with one point render as: the
      centred name, an empty contact line, the rule, a spacer, the experience
      heading, the "title - company" line with its dates, and one bullet. */
  lemma SingleExperienceScenario(name: string, title: string, company: string, dates: string, point: string)
    ensures var r := Resume(Some(Contact(Some(name), None, None, None, None)), None,
                            Some([Experience(title, company, dates, [point], map[])]), None, None, None, None, None);
      Render(r) == Success(Document(LetterPage, [
        Paragraph([Run(name, true, Some(NameSize))], Center, false, false, false),
        Paragraph([Run("", false, Some(BodySize))], Center, false, false, false),
        HorizontalLine,
        Spacer,
        Paragraph([Run(ExperienceTitle, true, Some(HeadingSize))], Inherited, false, false, false),
        Paragraph([Run(title + " - " + company, true, Some(EntrySize)), Run("\t", false, None),
                   Run(dates, false, Some(BodySize))], Inherited, false, true, false),
        Paragraph([Run(point, false, Some(BodySize))], Justify, true, false, false)]))
  {
    var e := Experience(title, company, dates, [point], map[]);
    var c := Contact(Some(name), None, None, None, None);
    var r := Resume(Some(c), None, Some([e]), None, None, None, None, None);
    assert ContactLine(c) == "";
    var line := Paragraph([Run(title + " - " + company, true, Some(EntrySize)), Run("\t", false, None),
                           Run(dates, false, Some(BodySize))], Inherited, false, true, false);
    var bullet := Paragraph([Run(point, false, Some(BodySize))], Justify, true, false, false);
    var heading := Paragraph([Run(ExperienceTitle, true, Some(HeadingSize))], Inherited, false, false, false);
    assert TabbedLine(title + " - " + company, Some(dates)) == line;
    assert BulletLines([point]) == [bullet];
    assert ExperienceEntry(e) == [line, bullet];
    assert [e][1..] == [];
    assert ExperienceEntries([e], e) == ExperienceEntry(e) + [] + ExperienceEntries([], e);
    assert ExperienceBlock([e]) == [line, bullet];
    assert Upper(ExperienceTitle) == ExperienceTitle by {
      TitlesUpperCase();
      UpperFixesUpperCase(ExperienceTitle);
    }
    assert SectionHeading(ExperienceTitle, true) == [Spacer, heading];
    assert Sections(r) == [Spacer, heading, line, bullet];
    var header := [Paragraph([Run(name, true, Some(NameSize))], Center, false, false, false),
                   Paragraph([Run("", false, Some(BodySize))], Center, false, false, false)];
    assert Header(r.contact) == Success(header);
    assert header + [HorizontalLine] + [Spacer, heading, line, bullet]
        == [header[0], header[1], HorizontalLine, Spacer, heading, line, bullet];
  }
}
