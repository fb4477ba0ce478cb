/**
 Inserting a release section into the changelog: what is kept, what is refused, where the new
 section lands, and why assembling a release twice changes nothing.
 */
module Changelog {

  import opened Strings
  import opened Options
  import opened TextLines

  type Line = string

  predicate IsVersionHeading(l: Line) { StartsWith(l, "## [") }

  predicate IsUnreleasedHeading(l: Line) { StartsWith(l, "## [Unreleased]") }

  predicate IsUnreleasedLink(l: Line) { StartsWith(l, "[Unreleased]: ") }

  predicate IsBlank(l: Line) { forall i | 0 <= i < |l| :: IsSpace(l[i]) }

  /** The classes of lines that insertion tells apart. */
  datatype Kind = Unreleased | Version | Link | Prose | Blank

  function KindOf(l: Line): Kind {
    if IsUnreleasedHeading(l) then Unreleased
    else if IsVersionHeading(l) then Version
    else if IsBlank(l) then Blank
    else if IsUnreleasedLink(l) then Link
    else Prose
  }

  lemma KindsAreExclusive(l: Line)
    ensures IsVersionHeading(l) <==> KindOf(l).Unreleased? || KindOf(l).Version?
    ensures IsBlank(l) <==> KindOf(l).Blank?
    ensures IsUnreleasedLink(l) <==> KindOf(l).Link?
  {
    if IsUnreleasedHeading(l) {
      assert l[..4] == l[..15][..4] == "## [";
    }
    if IsVersionHeading(l) {
      assert l[0] == l[..4][0] == '#';
    }
    if IsUnreleasedLink(l) {
      assert l[0] == l[..14][0] == '[';
    }
  }

  // ---------------------------------------------------------------- what is kept

  /** The lines seen so far end inside an Unreleased block. */
  predicate InUnreleased(lines: seq<Line>) {
    exists i | 0 <= i < |lines| ::
      KindOf(lines[i]).Unreleased? && forall m | i < m < |lines| :: !KindOf(lines[m]).Version?
  }

  /** Some line under an Unreleased heading is neither a heading nor blank. */
  ghost predicate HoldsUnreleasedContent(lines: seq<Line>) {
    exists j | 0 <= j < |lines| ::
      InUnreleased(lines[..j]) && (KindOf(lines[j]).Prose? || KindOf(lines[j]).Link?)
  }

  /** Everything but Unreleased headings, their link lines, and the blank lines under them. */
  function Survivors(lines: seq<Line>): seq<Line> {
    if lines == [] then []
    else
      var front, l := lines[..|lines| - 1], lines[|lines| - 1];
      Survivors(front) + if Survives(KindOf(l), InUnreleased(front)) then [l] else []
  }

  predicate Survives(k: Kind, inUnreleased: bool) {
    k.Version? || k.Prose? || (k.Blank? && !inUnreleased)
  }

  lemma InUnreleasedSnoc(lines: seq<Line>, k: nat)
    requires k < |lines|
    ensures InUnreleased(lines[..k + 1])
       <==> KindOf(lines[k]).Unreleased? || (InUnreleased(lines[..k]) && !KindOf(lines[k]).Version?)
  {
    var front, longer := lines[..k], lines[..k + 1];
    assert forall i | 0 <= i < k :: front[i] == longer[i];
    assert longer[k] == lines[k];
    if InUnreleased(front) && !KindOf(lines[k]).Version? {
      var i :| 0 <= i < |front| && KindOf(front[i]).Unreleased? && forall m | i < m < |front| :: !KindOf(front[m]).Version?;
      assert KindOf(longer[i]).Unreleased? && forall m | i < m < |longer| :: !KindOf(longer[m]).Version?;
    }
    if KindOf(lines[k]).Unreleased? {
      assert KindOf(longer[k]).Unreleased?;
    }
  }

  /** The first loop of `insert_section`: refused exactly when prose would be discarded. */
  method KeepLines(lines: seq<Line>) returns (kept: Option<seq<Line>>)
    ensures kept.None? <==> HoldsUnreleasedContent(lines)
    ensures kept.Some? ==> kept.value == Survivors(lines)
  {
    var acc: seq<Line> := [];
    var skipping := false;
    for k := 0 to |lines|
      invariant skipping == InUnreleased(lines[..k])
      invariant acc == Survivors(lines[..k])
      invariant forall j | 0 <= j < k :: !(InUnreleased(lines[..j]) && (KindOf(lines[j]).Prose? || KindOf(lines[j]).Link?))
    {
      var line := lines[k];
      KindsAreExclusive(line);
      InUnreleasedSnoc(lines, k);
      assert lines[..k + 1][..k] == lines[..k];
      if IsUnreleasedHeading(line) {
        skipping := true;
        continue;
      }
      if skipping {
        if IsVersionHeading(line) {
          skipping := false;
        } else if !IsBlank(line) {
          return None;
        } else {
          continue;
        }
      }
      if IsUnreleasedLink(line) { continue; }
      acc := acc + [line];
    }
    assert lines[..|lines|] == lines;
    kept := Some(acc);
  }

  /** The lines that carry text. */
  function Solid(lines: seq<Line>): seq<Line> {
    if lines == [] then []
    else Solid(lines[..|lines| - 1]) + if KindOf(lines[|lines| - 1]).Blank? then [] else [lines[|lines| - 1]]
  }

  /** The lines that insertion must not lose: all but blanks, Unreleased headings and their links. */
  function Essential(lines: seq<Line>): seq<Line> {
    if lines == [] then []
    else
      var k := KindOf(lines[|lines| - 1]);
      Essential(lines[..|lines| - 1]) + if k.Version? || k.Prose? then [lines[|lines| - 1]] else []
  }

  lemma {:induction false} SolidConcat(a: seq<Line>, b: seq<Line>)
    ensures Solid(a + b) == Solid(a) + Solid(b)
  {
    if b == [] {
      assert a + b == a;
    } else {
      var n := |b| - 1;
      assert (a + b)[..|a| + n] == a + b[..n];
      SolidConcat(a, b[..n]);
    }
  }

  /** Nothing essential is lost and nothing moves. */
  lemma {:induction false} SurvivorsKeepTheEssential(lines: seq<Line>)
    ensures Solid(Survivors(lines)) == Essential(lines)
  {
    if lines != [] {
      var front, l := lines[..|lines| - 1], lines[|lines| - 1];
      SurvivorsKeepTheEssential(front);
      var last := if Survives(KindOf(l), InUnreleased(front)) then [l] else [];
      SolidConcat(Survivors(front), last);
      assert Solid(last) == if KindOf(l).Version? || KindOf(l).Prose? then [l] else [];
    }
  }

  // ---------------------------------------------------------------- where the section goes

  /** The position of the first version heading, or the end. */
  function FirstVersion(lines: seq<Line>): (i: nat)
    ensures i <= |lines| && (i < |lines| ==> IsVersionHeading(lines[i]))
    ensures forall j | 0 <= j < i :: !IsVersionHeading(lines[j])
  {
    if lines == [] || IsVersionHeading(lines[0]) then 0 else 1 + FirstVersion(lines[1..])
  }

  function Placed(kept: seq<Line>, block: seq<Line>): seq<Line> {
    var i := FirstVersion(kept);
    if i < |kept| then kept[..i] + block + kept[i..] else kept + [""] + block
  }

  /** The second loop of `insert_section`. */
  method Place(kept: seq<Line>, block: seq<Line>) returns (body: seq<Line>)
    ensures body == Placed(kept, block)
  {
    for index := 0 to |kept|
      invariant forall j | 0 <= j < index :: !IsVersionHeading(kept[j])
    {
      if IsVersionHeading(kept[index]) {
        assert FirstVersion(kept) == index;
        return kept[..index] + block + kept[index..];
      }
    }
    body := kept + [""] + block;
  }

  lemma PlacedKeepsSolid(kept: seq<Line>, block: seq<Line>)
    ensures Solid(Placed(kept, block))
         == Solid(kept[..FirstVersion(kept)]) + Solid(block) + Solid(kept[FirstVersion(kept)..])
    ensures Solid(kept[..FirstVersion(kept)]) + Solid(kept[FirstVersion(kept)..]) == Solid(kept)
  {
    var i := FirstVersion(kept);
    SolidConcat(kept[..i], kept[i..]);
    assert kept[..i] + kept[i..] == kept;
    if i < |kept| {
      SolidConcat(kept[..i] + block, kept[i..]);
      SolidConcat(kept[..i], block);
    } else {
      SolidAtTheEnd(kept, block);
      assert kept[i..] == [] && kept[..i] == kept;
    }
  }

  lemma SolidAtTheEnd(kept: seq<Line>, block: seq<Line>)
    ensures Solid(kept + [""] + block) == Solid(kept) + Solid(block) + Solid([])
  {
    EmptyLineIsBlank();
    SolidConcat(kept + [""], block);
    SolidConcat(kept, [""]);
    assert Solid([""]) == Solid([]) + [];
  }

  lemma EmptyLineIsBlank()
    ensures KindOf("").Blank?
  {
    KindsAreExclusive("");
  }

  /** The new section's heading becomes the first version heading. */
  lemma NewSectionComesFirst(kept: seq<Line>, block: seq<Line>)
    requires block != [] && IsVersionHeading(block[0])
    ensures FirstVersion(Placed(kept, block)) < |Placed(kept, block)|
    ensures Placed(kept, block)[FirstVersion(Placed(kept, block))] == block[0]
  {
    var i, body := FirstVersion(kept), Placed(kept, block);
    var k := if i < |kept| then i else i + 1;
    assert body[k] == block[0];
    assert forall j | 0 <= j < k :: !IsVersionHeading(body[j]);
  }

  // ---------------------------------------------------------------- text

  /** `s.rstrip("\n")`. */
  function StripEnd(s: string): (r: string)
    ensures r <= s
  {
    if s != [] && s[|s| - 1] == '\n' then StripEnd(s[..|s| - 1]) else s
  }

  /** Lines without the empty ones at the end. */
  function TrimEnd(lines: seq<Line>): (r: seq<Line>)
    ensures r <= lines && Solid(r) == Solid(lines)
    ensures r == [] || r[|r| - 1] != []
    ensures forall i | |r| <= i < |lines| :: lines[i] == []
  {
    EmptyLineIsBlank();
    if lines != [] && lines[|lines| - 1] == [] then TrimEnd(lines[..|lines| - 1]) else lines
  }

  function Block(section: string): (block: seq<Line>)
    ensures block != [] && NoBreaks(block)
  {
    SplitLines(StripEnd(section)) + [""]
  }

  /** `"\n".join(body).rstrip("\n") + "\n"`. */
  function Finished(body: seq<Line>): string {
    StripEnd(Join(body, "\n")) + "\n"
  }

  lemma {:induction false} JoinEndsWithItsLastLine(lines: seq<Line>)
    requires lines != []
    ensures var last := lines[|lines| - 1];
            |Join(lines, "\n")| >= |last| && Join(lines, "\n")[|Join(lines, "\n")| - |last|..] == last
  {
    if |lines| > 1 {
      JoinEndsWithItsLastLine(lines[1..]);
      var rest, last := Join(lines[1..], "\n"), lines[|lines| - 1];
      assert Join(lines, "\n") == lines[0] + "\n" + rest;
      assert Join(lines, "\n")[|Join(lines, "\n")| - |rest|..] == rest;
      assert Join(lines, "\n")[|Join(lines, "\n")| - |last|..] == rest[|rest| - |last|..];
    }
  }

  lemma EmptyEndIsStripped(body: seq<Line>)
    requires body != [] && body[|body| - 1] == []
    ensures StripEnd(Join(body, "\n")) == StripEnd(Join(body[..|body| - 1], "\n"))
  {
    var n := |body| - 1;
    assert body == body[..n] + [""];
    if n > 0 {
      JoinWithEmptyEnd(body[..n]);
      var t := Join(body[..n], "\n");
      assert (t + "\n")[..|t|] == t;
    }
  }

  lemma SameEnd(t: string, last: string)
    requires last != [] && |t| >= |last| && t[|t| - |last|..] == last
    ensures t != [] && t[|t| - 1] == last[|last| - 1]
  {
    assert t[|t| - |last|..][|last| - 1] == t[|t| - 1];
  }

  lemma FullEndStays(body: seq<Line>)
    requires NoBreaks(body) && body != [] && body[|body| - 1] != []
    ensures StripEnd(Join(body, "\n")) == Join(body, "\n")
  {
    var last := body[|body| - 1];
    JoinEndsWithItsLastLine(body);
    SameEnd(Join(body, "\n"), last);
    assert IsBreak('\n') && !IsBreak(last[|last| - 1]);
  }

  /** Stripping newlines from the text trims empty lines from its end. */
  lemma {:induction false} FinishingTrims(body: seq<Line>)
    requires NoBreaks(body)
    ensures StripEnd(Join(body, "\n")) == Join(TrimEnd(body), "\n")
    decreases |body|
  {
    if body != [] {
      var n := |body| - 1;
      if body[n] == [] {
        FinishingTrims(body[..n]);
        EmptyEndIsStripped(body);
      } else {
        FullEndStays(body);
      }
    }
  }

  /** Read back, the finished text is the body without its trailing empty lines. */
  lemma FinishedReadsBack(body: seq<Line>)
    requires NoBreaks(body) && TrimEnd(body) != []
    ensures SplitLines(Finished(body)) == TrimEnd(body)
  {
    FinishingTrims(body);
    SplitJoined(TrimEnd(body));
  }

  ghost function Inserted(changelog: string, section: string): Option<string> {
    if HoldsUnreleasedContent(SplitLines(changelog)) then None
    else Some(Finished(Placed(Survivors(SplitLines(changelog)), Block(section))))
  }

  method InsertSection(changelog: string, section: string) returns (r: Option<string>)
    ensures r == Inserted(changelog, section)
  {
    var kept := KeepLines(SplitLines(changelog));
    if kept.None? { return None; }
    var body := Place(kept.value, Block(section));
    r := Some(StripEnd(Join(body, "\n")) + "\n");
  }

  lemma {:induction false} SurvivorsHaveNoBreaks(lines: seq<Line>)
    requires NoBreaks(lines)
    ensures NoBreaks(Survivors(lines))
  {
    if lines != [] { SurvivorsHaveNoBreaks(lines[..|lines| - 1]); }
  }

  /** A section whose text starts with a version heading. */
  predicate HasHeading(section: string) {
    IsVersionHeading(Block(section)[0])
  }

  lemma TrimKeepsPrefix(body: seq<Line>, k: nat)
    requires k < |body| && body[k] != []
    ensures k < |TrimEnd(body)| && TrimEnd(body)[k] == body[k]
  {
  }

  lemma {:induction false} FirstVersionOfPrefix(lines: seq<Line>, prefix: seq<Line>)
    requires prefix <= lines && FirstVersion(lines) < |prefix|
    ensures FirstVersion(prefix) == FirstVersion(lines)
  {
    var i, j := FirstVersion(lines), FirstVersion(prefix);
    assert prefix[i] == lines[i];
    assert j <= i;
    assert lines[j] == prefix[j];
  }

  /** What a successful insertion leaves on disk: every essential line of the old changelog, in order,
      around the new section, whose heading is now the first version heading. */
  lemma InsertionConserves(changelog: string, section: string)
    requires HasHeading(section) && Inserted(changelog, section).Some?
    ensures var lines, out := SplitLines(changelog), SplitLines(Inserted(changelog, section).value);
            && (exists before, after ::
                  && before + after == Essential(lines)
                  && Solid(out) == before + Solid(Block(section)) + after)
            && FirstVersion(out) < |out| && out[FirstVersion(out)] == Block(section)[0]
  {
    var lines, block := SplitLines(changelog), Block(section);
    var kept := Survivors(lines);
    var body := Placed(kept, block);
    SurvivorsHaveNoBreaks(lines);
    PlacedHasNoBreaks(kept, block);
    NewSectionComesFirst(kept, block);
    var f := FirstVersion(body);
    assert body[f] != [];
    TrimKeepsPrefix(body, f);
    FinishedReadsBack(body);
    FirstVersionOfPrefix(body, TrimEnd(body));
    PlacedKeepsSolid(kept, block);
    SurvivorsKeepTheEssential(lines);
    var i := FirstVersion(kept);
    assert Solid(kept[..i]) + Solid(kept[i..]) == Essential(lines);
    assert Solid(TrimEnd(body)) == Solid(kept[..i]) + Solid(block) + Solid(kept[i..]);
  }

  lemma PlacedHasNoBreaks(kept: seq<Line>, block: seq<Line>)
    requires NoBreaks(kept) && NoBreaks(block)
    ensures NoBreaks(Placed(kept, block))
  {
  }

  // ---------------------------------------------------------------- running again

  predicate AtLineStart(text: string, i: nat) {
    i <= |text| && (i == 0 || text[i - 1] == '\n')
  }

  /** The re-run guard: some line, after a newline or at the start, opens the version's section. */
  predicate HasSection(text: string, version: string) {
    exists i | 0 <= i <= |text| :: AtLineStart(text, i) && StartsWith(text[i..], "## [" + version + "]")
  }

  /** `cmd_assemble`, for the section built from the fragments present (empty when there are none). */
  ghost function Assembled(changelog: string, version: string, section: string): Option<string> {
    if HasSection(changelog, version) then Some(changelog)
    else if section == "" then Some(changelog)
    else Inserted(changelog, section)
  }

  lemma {:induction false} LinesStartInTheText(lines: seq<Line>, k: nat, prefix: string) returns (i: nat)
    requires k < |lines| && StartsWith(lines[k], prefix)
    ensures AtLineStart(Join(lines, "\n"), i) && StartsWith(Join(lines, "\n")[i..], prefix)
  {
    var t := Join(lines, "\n");
    if k == 0 {
      i := 0;
      assert t[..|prefix|] == lines[0][..|prefix|];
    } else {
      var i' := LinesStartInTheText(lines[1..], k - 1, prefix);
      var rest := Join(lines[1..], "\n");
      var skipped := |lines[0]| + 1;
      assert t == lines[0] + "\n" + rest && t[skipped..] == rest;
      i := skipped + i';
      assert t[i..] == rest[i'..];
      assert i' > 0 ==> t[i - 1] == rest[i' - 1];
    }
  }

  /** The section a release renders opens with the release's own heading. */
  predicate OpensRelease(section: string, version: string) {
    StartsWith(Block(section)[0], "## [" + version + "]")
  }

  lemma {:induction false} OpeningSurvivesStripping(text: string, mark: string)
    requires StartsWith(text, mark) && mark != "" && NoBreak(mark)
    ensures StartsWith(StripEnd(text), mark)
  {
    var n := |text| - 1;
    assert forall i | 0 <= i < |mark| :: text[i] == text[..|mark|][i] == mark[i];
    if text[n] == '\n' {
      assert text[..n][..|mark|] == mark;
      OpeningSurvivesStripping(text[..n], mark);
    }
  }

  lemma {:induction false} OpeningIsOnTheFirstLine(text: string, mark: string)
    requires StartsWith(text, mark) && mark != "" && NoBreak(mark)
    ensures SplitLines(text) != [] && StartsWith(SplitLines(text)[0], mark)
  {
    var b := FirstBreak(text);
    assert forall i | 0 <= i < |mark| :: text[i] == text[..|mark|][i] == mark[i];
    assert text[..b][..|mark|] == mark;
  }

  /** Text that opens with the release's heading has that heading as its first line. */
  lemma SectionsOpenTheirRelease(section: string, version: string)
    requires StartsWith(section, "## [" + version + "]") && NoBreak(version)
    ensures OpensRelease(section, version)
  {
    var mark := "## [" + version + "]";
    assert NoBreak("## [") && NoBreak("]");
    assert NoBreak(mark);
    OpeningSurvivesStripping(section, mark);
    OpeningIsOnTheFirstLine(StripEnd(section), mark);
  }

  /** After a release was assembled into the changelog, assembling it again changes nothing, whatever
      fragments have appeared since. */
  lemma AssemblingAgainIsANoOp(changelog: string, version: string, section: string, later: string)
    requires section != "" && OpensRelease(section, version)
    requires Assembled(changelog, version, section).Some?
    ensures var text := Assembled(changelog, version, section).value;
            HasSection(text, version) && Assembled(text, version, later) == Some(text)
  {
    if !HasSection(changelog, version) {
      InsertedHasSection(changelog, version, section);
    }
  }

  lemma InsertedHasSection(changelog: string, version: string, section: string)
    requires OpensRelease(section, version) && Inserted(changelog, section).Some?
    ensures HasSection(Inserted(changelog, section).value, version)
  {
    var lines, block, mark := SplitLines(changelog), Block(section), "## [" + version + "]";
    var kept := Survivors(lines);
    var body := Placed(kept, block);
    SurvivorsHaveNoBreaks(lines);
    PlacedHasNoBreaks(kept, block);
    assert block[0][..|mark|][..4] == mark[..4] == "## [";
    NewSectionComesFirst(kept, block);
    var f := FirstVersion(body);
    TrimKeepsPrefix(body, f);
    FinishingTrims(body);
    var i := LinesStartInTheText(TrimEnd(body), f, mark);
    var t := Join(TrimEnd(body), "\n");
    assert (t + "\n")[i..][..|mark|] == t[i..][..|mark|];
    assert AtLineStart(t + "\n", i);
  }

  /** `cmd_assemble`. A changelog that has the section, or for which nothing was rendered, is left
      alone; refusal is the insertion's. What comes back has the release's section, and assembling it
      again changes nothing, whatever fragments have appeared. */
  method Assemble(changelog: string, version: string, section: string) returns (r: Option<string>)
    ensures HasSection(changelog, version) || section == "" ==> r == Some(changelog)
    ensures r.None? <==>
              !HasSection(changelog, version) && section != "" && HoldsUnreleasedContent(SplitLines(changelog))
    ensures r.Some? && section != "" && OpensRelease(section, version) ==>
              && HasSection(r.value, version)
              && forall later :: Assembled(r.value, version, later) == r
    ensures r == Assembled(changelog, version, section)
  {
    if HasSection(changelog, version) || section == "" {
      return Some(changelog);
    }
    r := InsertSection(changelog, section);
    if r.Some? && OpensRelease(section, version) {
      AssemblingAgainIsANoOp(changelog, version, section, "");
    }
  }
}
