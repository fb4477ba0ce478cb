/**
 From fragments to the file: the text of a release section, and where its bullets end up in the
 changelog that it is inserted into.
 */
module ReleaseText {

  import opened Strings
  import opened Options
  import opened TextLines
  import opened ReleaseNotes
  import opened Changelog

  /** What rendering takes besides the fragments: the rest of the heading line, the lines of the
      stripped summary, and the link to a fragment's pull request, which may be empty. */
  datatype Notes = Notes(version: string, rest: string, summary: seq<Line>, link: Fragment -> string)

  function Mark(version: string): string {
    "## [" + version + "]"
  }

  /** Fragments have text, and nothing but fragment texts breaks a line. */
  predicate Printable(notes: Notes, fragments: seq<Fragment>) {
    && NoBreak(notes.version) && NoBreak(notes.rest) && NoBreaks(notes.summary)
    && forall f | f in fragments :: PrintableFragment(f, notes)
  }

  predicate PrintableFragment(f: Fragment, notes: Notes) {
    NoBreak(notes.link(f)) && f.text != []
  }

  // ---------------------------------------------------------------- texts of the parts

  function TitleOf(s: Section): string {
    match s
    case Added => "Added"
    case Changed => "Changed"
    case Deprecated => "Deprecated"
    case Removed => "Removed"
    case Fixed => "Fixed"
    case Security => "Security"
  }

  /** Continuation lines are indented so that they stay inside the bullet. */
  function Indented(lines: seq<Line>): seq<Line> {
    seq(|lines|, i requires 0 <= i < |lines| => if IsBlank(lines[i]) then "" else "  " + lines[i])
  }

  /** The lines of one list item, with the link behind the last one. */
  function BulletLines(f: Fragment, link: string): seq<Line>
    requires f.text != []
  {
    var lines := SplitLines(f.text);
    var body := ["- " + lines[0]] + Indented(lines[1..]);
    body[..|body| - 1] + [body[|body| - 1] + link]
  }

  /** The lines of a part; `Text` joins them. */
  function PartLines(p: Part, notes: Notes): seq<Line>
    requires p.Bullet? ==> p.fragment.text != []
    ensures PartLines(p, notes) != []
  {
    match p
    case Heading => [Mark(notes.version) + notes.rest]
    case Summary => if notes.summary == [] then [""] else notes.summary
    case Gap => [""]
    case Title(s) => ["### " + TitleOf(s)]
    case Bullet(f) => BulletLines(f, notes.link(f))
  }

  predicate Written(parts: seq<Part>, notes: Notes) {
    forall i | 0 <= i < |parts| && parts[i].Bullet? :: PrintableFragment(parts[i].fragment, notes)
  }

  /** `"\n".join(parts)`, each part being its own lines joined. */
  function Text(parts: seq<Part>, notes: Notes): string
    requires Written(parts, notes)
  {
    Join(seq(|parts|, i requires 0 <= i < |parts| => Join(PartLines(parts[i], notes), "\n")), "\n")
  }

  /** All lines of the section. */
  function AllLines(parts: seq<Part>, notes: Notes): seq<Line>
    requires Written(parts, notes)
  {
    if parts == [] then [] else PartLines(parts[0], notes) + AllLines(parts[1..], notes)
  }

  lemma {:induction false} JoinAppend(a: seq<Line>, b: seq<Line>)
    requires a != [] && b != []
    ensures Join(a + b, "\n") == Join(a, "\n") + "\n" + Join(b, "\n")
  {
    if |a| == 1 {
      assert (a + b)[1..] == b;
    } else {
      assert (a + b)[1..] == a[1..] + b;
      JoinAppend(a[1..], b);
      Nest(a[0], Join(a[1..], "\n"), Join(b, "\n"));
    }
  }

  lemma Nest(first: string, more: string, last: string)
    ensures first + "\n" + (more + "\n" + last) == first + "\n" + more + "\n" + last
  {
  }

  lemma TextStep(parts: seq<Part>, notes: Notes)
    requires |parts| > 1 && Written(parts, notes)
    ensures Text(parts, notes) == Join(PartLines(parts[0], notes), "\n") + "\n" + Text(parts[1..], notes)
  {
    var texts := seq(|parts|, i requires 0 <= i < |parts| => Join(PartLines(parts[i], notes), "\n"));
    var rest := seq(|parts| - 1, i requires 0 <= i < |parts| - 1 => Join(PartLines(parts[1..][i], notes), "\n"));
    assert texts[1..] == rest;
  }

  /** Joining the joined parts is joining all lines. */
  lemma {:induction false} TextIsItsLines(parts: seq<Part>, notes: Notes)
    requires parts != [] && Written(parts, notes)
    ensures Text(parts, notes) == Join(AllLines(parts, notes), "\n") && AllLines(parts, notes) != []
  {
    if |parts| == 1 {
      assert PartLines(parts[0], notes) + [] == PartLines(parts[0], notes);
    } else {
      TextIsItsLines(parts[1..], notes);
      TextStep(parts, notes);
      JoinAppend(PartLines(parts[0], notes), AllLines(parts[1..], notes));
    }
  }

  lemma BulletsAreLines(f: Fragment, link: string)
    requires f.text != [] && NoBreak(link)
    ensures NoBreaks(BulletLines(f, link))
  {
    var lines := SplitLines(f.text);
    var body := ["- " + lines[0]] + Indented(lines[1..]);
    assert NoBreak("- ") && NoBreak("  ");
    forall i | 0 <= i < |body| ensures NoBreak(body[i]) {
      if i > 0 { assert body[i] == Indented(lines[1..])[i - 1] && lines[1..][i - 1] == lines[i]; }
    }
  }

  lemma TitlesAreLines(s: Section)
    ensures NoBreak("### " + TitleOf(s))
  {
  }

  lemma MarkIsALine(notes: Notes)
    requires NoBreak(notes.version) && NoBreak(notes.rest)
    ensures NoBreak(Mark(notes.version) + notes.rest)
  {
    assert NoBreak("## [") && NoBreak("]");
  }

  lemma PartsAreLines(p: Part, notes: Notes)
    requires NoBreak(notes.version) && NoBreak(notes.rest) && NoBreaks(notes.summary)
    requires p.Bullet? ==> PrintableFragment(p.fragment, notes)
    ensures NoBreaks(PartLines(p, notes))
  {
    match p
    case Heading => MarkIsALine(notes);
    case Summary =>
    case Gap =>
    case Title(s) => TitlesAreLines(s);
    case Bullet(f) => BulletsAreLines(f, notes.link(f));
  }

  lemma {:induction false} AllAreLines(parts: seq<Part>, notes: Notes)
    requires NoBreak(notes.version) && NoBreak(notes.rest) && NoBreaks(notes.summary) && Written(parts, notes)
    ensures NoBreaks(AllLines(parts, notes))
  {
    if parts != [] {
      PartsAreLines(parts[0], notes);
      AllAreLines(parts[1..], notes);
    }
  }

  // ---------------------------------------------------------------- the section in the file

  /** Lines whose last one is not empty are read back without a final newline too. */
  lemma {:induction false} SplitUnended(lines: seq<Line>)
    requires NoBreaks(lines) && lines != [] && lines[|lines| - 1] != []
    ensures SplitLines(Join(lines, "\n")) == lines
  {
    if |lines| == 1 {
      FirstBreakOfLine(lines[0]);
    } else {
      SplitUnended(lines[1..]);
      SplitFirst(lines[0], Join(lines[1..], "\n"));
    }
  }

  lemma {:induction false} FirstBreakOfLine(a: string)
    requires NoBreak(a)
    ensures FirstBreak(a) == |a|
  {
    if a != [] { FirstBreakOfLine(a[1..]); }
  }

  /** What insertion puts into the file of a rendered section: its lines that carry text. */
  lemma SectionLines(parts: seq<Part>, notes: Notes)
    requires parts != [] && parts[0] == Heading && Written(parts, notes)
    requires NoBreak(notes.version) && NoBreak(notes.rest) && NoBreaks(notes.summary)
    ensures Solid(Block(Text(parts, notes))) == Solid(AllLines(parts, notes))
    ensures Block(Text(parts, notes))[0] == Mark(notes.version) + notes.rest
  {
    var lines := AllLines(parts, notes);
    TextIsItsLines(parts, notes);
    AllAreLines(parts, notes);
    FinishingTrims(lines);
    assert lines[0] == Mark(notes.version) + notes.rest;
    TrimKeepsPrefix(lines, 0);
    SplitUnended(TrimEnd(lines));
    SolidConcat(TrimEnd(lines), [""]);
    EmptyLineIsBlank();
    assert Solid([""]) == Solid([]);
  }

  lemma {:induction false} BulletsAreListed(parts: seq<Part>, i: nat)
    requires i < |parts| && parts[i].Bullet?
    ensures parts[i].fragment in Bullets(parts)
  {
    if i < |parts| - 1 {
      BulletsAreListed(parts[..|parts| - 1], i);
    }
  }

  lemma RenderedIsWritten(parts: seq<Part>, fragments: seq<Fragment>, notes: Notes)
    requires multiset(Bullets(parts)) == multiset(fragments) && Printable(notes, fragments)
    ensures Written(parts, notes)
  {
    forall i | 0 <= i < |parts| && parts[i].Bullet? ensures PrintableFragment(parts[i].fragment, notes) {
      BulletsAreListed(parts, i);
      assert parts[i].fragment in multiset(Bullets(parts));
      assert parts[i].fragment in multiset(fragments);
    }
  }

  /** The release's heading opens the section, so that insertion and the re-run guard find it. */
  lemma SectionOpens(parts: seq<Part>, notes: Notes)
    requires parts != [] && parts[0] == Heading && Written(parts, notes)
    requires NoBreak(notes.version) && NoBreak(notes.rest) && NoBreaks(notes.summary)
    ensures Text(parts, notes) != "" && HasHeading(Text(parts, notes)) && OpensRelease(Text(parts, notes), notes.version)
  {
    SectionLines(parts, notes);
    var first := Mark(notes.version) + notes.rest;
    assert first[..4] == "## [";
    assert first[..|Mark(notes.version)|] == Mark(notes.version);
  }

  /** The file holds the rendered lines in one piece, between the essential lines it had before. */
  ghost predicate Carries(text: string, changelog: string, rendered: seq<Line>, heading: Line) {
    var out := SplitLines(text);
    && (exists before, after ::
          before + after == Essential(SplitLines(changelog)) && Solid(out) == before + Solid(rendered) + after)
    && FirstVersion(out) < |out| && out[FirstVersion(out)] == heading
  }

  lemma InsertedCarries(changelog: string, parts: seq<Part>, notes: Notes)
    requires parts != [] && parts[0] == Heading && Written(parts, notes)
    requires NoBreak(notes.version) && NoBreak(notes.rest) && NoBreaks(notes.summary)
    requires Inserted(changelog, Text(parts, notes)).Some?
    ensures Carries(Inserted(changelog, Text(parts, notes)).value, changelog, AllLines(parts, notes),
                    Mark(notes.version) + notes.rest)
  {
    SectionOpens(parts, notes);
    SectionLines(parts, notes);
    InsertionConserves(changelog, Text(parts, notes));
  }

  predicate Fresh(changelog: string, fragments: seq<Fragment>, notes: Notes) {
    !HasSection(changelog, notes.version) && fragments != []
  }

  /** `cmd_assemble` from the fragments on. A release that is there already, or has no fragments,
      changes nothing. Otherwise, unless Unreleased content is in the way, the file holds every
      fragment's bullet once, under its own section's title and in order, in one piece behind the
      release's heading, which is the first version heading; nothing essential is lost; and
      assembling again changes nothing. */
  method WriteRelease(changelog: string, fragments: seq<Fragment>, notes: Notes, hasSummary: bool)
    returns (r: Option<string>, ghost parts: seq<Part>)
    requires Printable(notes, fragments)
    ensures !Fresh(changelog, fragments, notes) ==> r == Some(changelog)
    ensures r.None? <==> Fresh(changelog, fragments, notes) && HoldsUnreleasedContent(SplitLines(changelog))
    ensures multiset(Bullets(parts)) == multiset(fragments) && InOrder(Bullets(parts)) && WellTitled(parts)
    ensures Written(parts, notes)
    ensures Fresh(changelog, fragments, notes) && r.Some? ==>
              && Carries(r.value, changelog, AllLines(parts, notes), Mark(notes.version) + notes.rest)
              && HasSection(r.value, notes.version)
              && forall later :: Assembled(r.value, notes.version, later) == r
  {
    var rendered := RenderParts(fragments, hasSummary);
    parts := rendered;
    RenderedIsWritten(parts, fragments, notes);
    if HasSection(changelog, notes.version) || fragments == [] {
      return Some(changelog), parts;
    }
    SectionOpens(parts, notes);
    r := Assemble(changelog, notes.version, Text(rendered, notes));
    if r.Some? {
      InsertedCarries(changelog, parts, notes);
    }
  }
}
