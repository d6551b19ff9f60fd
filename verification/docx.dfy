/** The document vocabulary the renderer writes: paragraphs of runs, with the
    few formatting facts utils/document_handler.py sets. Lengths are integers:
    font sizes in half-points, page measures in hundredths of an inch. */
module Docx {
  import opened Wrappers
  import opened Text

  datatype Alignment = Inherited | Center | Justify

  /** A run of text; `size` is `None` when the run keeps the style's size. */
  datatype Run = Run(text: string, bold: bool, size: Option<nat>)

  datatype Paragraph = Paragraph(
    runs: seq<Run>,
    alignment: Alignment,
    bulleted: bool,       // the 'List Bullet' style
    rightTab: bool,       // a right-aligned tab stop at RightTabStop
    bottomBorder: bool)   // the single bottom border of the horizontal rule

  datatype PageSetup = PageSetup(width: nat, height: nat, left: nat, right: nat, top: nat, bottom: nat)

  datatype Document = Document(page: PageSetup, paragraphs: seq<Paragraph>)

  /** 8.5in x 11in with 1in side margins and 0.8in top and bottom margins. */
  const LetterPage: PageSetup := PageSetup(850, 1100, 100, 100, 80, 80)

  /** The right tab stop, 6.4in from the left margin. */
  const RightTabStop: nat := 640

  const NameSize: nat := 32      // 16pt
  const HeadingSize: nat := 24   // 12pt
  const EntrySize: nat := 22     // 11pt
  const BodySize: nat := 21      // 10.5pt

  /** `doc.add_paragraph()` with nothing in it. */
  const Spacer: Paragraph := Paragraph([], Inherited, false, false, false)

  /** `add_horizontal_line`: an empty paragraph with a bottom border. */
  const HorizontalLine: Paragraph := Paragraph([], Inherited, false, false, true)

  /** The paragraph shape only a section heading has: one bold 12pt run. */
  predicate IsHeading(p: Paragraph) {
    |p.runs| == 1 && p.runs[0].bold && p.runs[0].size == Some(HeadingSize)
  }

  /** A paragraph of section content: neither a heading nor the rule. */
  predicate IsBody(p: Paragraph) {
    !IsHeading(p) && !p.bottomBorder
  }

  predicate AllBody(ps: seq<Paragraph>) {
    forall p :: p in ps ==> IsBody(p)
  }

  /** `add_section_heading(text, space_before)`: an optional spacer, then the
      upper-cased text as one bold 12pt run. */
  function SectionHeading(text: string, spaceBefore: bool): (r: seq<Paragraph>)
    ensures |r| == if spaceBefore then 2 else 1
    ensures spaceBefore ==> r[0] == Spacer
    ensures IsHeading(r[|r| - 1]) && IsUpperCase(r[|r| - 1].runs[0].text)
  {
    (if spaceBefore then [Spacer] else [])
    + [Paragraph([Run(Upper(text), true, Some(HeadingSize))], Inherited, false, false, false)]
  }

  /** An entry's first line: bold 11pt text on the left and, when there is a
      date, a tab and the 10.5pt date, which the right tab stop pushes right. */
  function TabbedLine(left: string, right: Option<string>): (p: Paragraph)
    ensures p.rightTab && !p.bulleted && IsBody(p)
    ensures |p.runs| == (if right.Some? then 3 else 1)
    ensures p.runs[0] == Run(left, true, Some(EntrySize))
    ensures right.Some? ==> p.runs[1].text == "\t" && p.runs[2] == Run(right.value, false, Some(BodySize))
  {
    Paragraph([Run(left, true, Some(EntrySize))]
              + (if right.Some? then [Run("\t", false, None), Run(right.value, false, Some(BodySize))] else []),
              Inherited, false, true, false)
  }

  /** A 10.5pt paragraph holding `text`. */
  function TextLine(text: string, alignment: Alignment): (p: Paragraph)
    ensures IsBody(p) && !p.bulleted && p != Spacer
  {
    Paragraph([Run(text, false, Some(BodySize))], alignment, false, false, false)
  }

  /** One justified 'List Bullet' paragraph. */
  function Bullet(text: string): (p: Paragraph)
    ensures IsBody(p) && p.bulleted && p != Spacer
  {
    Paragraph([Run(text, false, Some(BodySize))], Justify, true, false, false)
  }

  /** A justified line with a bold caption and the ", "-joined items, both
      10.5pt (the skills, technologies and coursework lines). */
  function LabelledLine(caption: string, items: seq<string>): (p: Paragraph)
    ensures IsBody(p) && !p.bulleted && p != Spacer
    ensures p.runs == [Run(caption, true, Some(BodySize)), Run(Join(items, ", "), false, Some(BodySize))]
  {
    Paragraph([Run(caption, true, Some(BodySize)), Run(Join(items, ", "), false, Some(BodySize))],
              Justify, false, false, false)
  }

  /** One bullet per point, in order. */
  function BulletLines(points: seq<string>): (r: seq<Paragraph>)
    ensures |r| == |points|
    ensures forall i :: 0 <= i < |points| ==> r[i] == Bullet(points[i])
  {
    seq(|points|, i requires 0 <= i < |points| => Bullet(points[i]))
  }

  // ---------------------------------------------------------------------------
  // Observations of a paragraph sequence

  /** The text a reader sees in a paragraph: its runs' texts, in order. */
  function RunsText(runs: seq<Run>): string
    decreases |runs|
  {
    if |runs| == 0 then "" else runs[0].text + RunsText(runs[1..])
  }

  /** The concatenation of `f` over the paragraphs, in order. */
  function Collect<T>(ps: seq<Paragraph>, f: Paragraph -> seq<T>): seq<T>
    decreases |ps|
  {
    if |ps| == 0 then [] else f(ps[0]) + Collect(ps[1..], f)
  }

  lemma {:induction false} CollectAppend<T>(a: seq<Paragraph>, b: seq<Paragraph>, f: Paragraph -> seq<T>)
    ensures Collect(a + b, f) == Collect(a, f) + Collect(b, f)
    decreases |a|
  {
    if |a| > 0 {
      CollectAppend(a[1..], b, f);
      assert (a + b)[0] == a[0];
      assert (a + b)[1..] == a[1..] + b;
    } else {
      assert a + b == b;
    }
  }

  lemma {:induction false} CollectNothing<T>(ps: seq<Paragraph>, f: Paragraph -> seq<T>)
    requires forall p :: p in ps ==> f(p) == []
    ensures Collect(ps, f) == []
    decreases |ps|
  {
    if |ps| > 0 {
      CollectNothing(ps[1..], f);
    }
  }

  function HeadingText(p: Paragraph): seq<string> {
    if IsHeading(p) then [p.runs[0].text] else []
  }

  function SpacerMark(p: Paragraph): seq<Paragraph> {
    if p == Spacer then [p] else []
  }

  function BorderMark(p: Paragraph): seq<Paragraph> {
    if p.bottomBorder then [p] else []
  }

  function BulletText(p: Paragraph): seq<string> {
    if p.bulleted && |p.runs| == 1 then [p.runs[0].text] else []
  }

  /** The heading texts, in order. */
  function Headings(ps: seq<Paragraph>): seq<string> {
    Collect(ps, HeadingText)
  }

  function SpacerCount(ps: seq<Paragraph>): nat {
    |Collect(ps, SpacerMark)|
  }

  function BorderCount(ps: seq<Paragraph>): nat {
    |Collect(ps, BorderMark)|
  }

  /** The texts of the bullet paragraphs, in order. */
  function BulletTexts(ps: seq<Paragraph>): seq<string> {
    Collect(ps, BulletText)
  }

  lemma {:induction false} BulletLinesTexts(points: seq<string>)
    ensures BulletTexts(BulletLines(points)) == points
    ensures SpacerCount(BulletLines(points)) == 0
    ensures AllBody(BulletLines(points))
    decreases |points|
  {
    if |points| > 0 {
      BulletLinesTexts(points[1..]);
      assert BulletLines(points)[1..] == BulletLines(points[1..]);
    }
  }

  lemma BodyHasNoHeadingOrBorder(ps: seq<Paragraph>)
    requires AllBody(ps)
    ensures Headings(ps) == [] && BorderCount(ps) == 0
  {
    CollectNothing(ps, HeadingText);
    CollectNothing(ps, BorderMark);
  }
}
