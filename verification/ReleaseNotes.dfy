/**
 Rendering a release section from its fragments: six headed lists in a fixed order, each list with
 the highest numbered fragment first.
 */
module ReleaseNotes {

  import opened Options

  datatype Section = Added | Changed | Deprecated | Removed | Fixed | Security

  datatype Fragment = Fragment(section: Section, ident: Option<nat>, stem: string, text: string)

  /** The order of the headings. */
  const SECTIONS: seq<Section> := [Added, Changed, Deprecated, Removed, Fixed, Security]

  function Rank(s: Section): (r: nat)
    ensures r < 6
  {
    match s case Added => 0 case Changed => 1 case Deprecated => 2 case Removed => 3 case Fixed => 4 case Security => 5
  }

  predicate TextAtMost(a: string, b: string) {
    a == [] || (b != [] && (a[0] < b[0] || (a[0] == b[0] && TextAtMost(a[1..], b[1..]))))
  }

  /** `sort_key`, compared as a tuple: numbered or not, the number, the stem. */
  predicate KeyAtMost(f: Fragment, g: Fragment) {
    match (f.ident, g.ident)
    case (None, Some(_)) => true
    case (Some(_), None) => false
    case (None, None) => TextAtMost(f.stem, g.stem)
    case (Some(m), Some(n)) => m < n || (m == n && TextAtMost(f.stem, g.stem))
  }

  lemma {:induction false} TextOrder(a: string, b: string, c: string)
    ensures TextAtMost(a, b) || TextAtMost(b, a)
    ensures TextAtMost(a, b) && TextAtMost(b, a) ==> a == b
    ensures TextAtMost(a, b) && TextAtMost(b, c) ==> TextAtMost(a, c)
    decreases |a| + |b| + |c|
  {
    if a != [] && b != [] {
      TextOrder(a[1..], b[1..], if c != [] then c[1..] else c);
    }
  }

  lemma KeyOrder(f: Fragment, g: Fragment, h: Fragment)
    ensures KeyAtMost(f, g) || KeyAtMost(g, f)
    ensures KeyAtMost(f, g) && KeyAtMost(g, f) ==> f.stem == g.stem
    ensures KeyAtMost(f, g) && KeyAtMost(g, h) ==> KeyAtMost(f, h)
  {
    TextOrder(f.stem, g.stem, h.stem);
  }

  // ---------------------------------------------------------------- sorting within a section

  /** Into a descending list, behind everything it does not exceed. */
  function Insert(sorted: seq<Fragment>, f: Fragment): seq<Fragment> {
    if sorted == [] then [f]
    else if KeyAtMost(f, sorted[|sorted| - 1]) then sorted + [f]
    else Insert(sorted[..|sorted| - 1], f) + [sorted[|sorted| - 1]]
  }

  /** `sorted(fragments, key=sort_key, reverse=True)`. */
  function Sorted(fragments: seq<Fragment>): seq<Fragment> {
    if fragments == [] then [] else Insert(Sorted(fragments[..|fragments| - 1]), fragments[|fragments| - 1])
  }

  predicate Descending(s: seq<Fragment>) {
    forall i, j | 0 <= i < j < |s| :: KeyAtMost(s[j], s[i])
  }

  lemma {:induction false} InsertKeeps(sorted: seq<Fragment>, f: Fragment)
    requires Descending(sorted)
    ensures multiset(Insert(sorted, f)) == multiset(sorted) + multiset{f}
    ensures Descending(Insert(sorted, f))
  {
    if sorted != [] {
      var n := |sorted| - 1;
      var front, last := sorted[..n], sorted[n];
      assert sorted == front + [last];
      if KeyAtMost(f, last) {
        forall i | 0 <= i < n ensures KeyAtMost(f, sorted[i]) { KeyOrder(f, last, sorted[i]); }
      } else {
        KeyOrder(f, last, last);
        InsertKeeps(front, f);
        forall g | g in Insert(front, f) ensures KeyAtMost(last, g) {
          assert g in multiset(Insert(front, f));
          assert g in front || g == f;
        }
      }
    }
  }

  lemma {:induction false} SortedKeeps(fragments: seq<Fragment>)
    ensures multiset(Sorted(fragments)) == multiset(fragments) && Descending(Sorted(fragments))
  {
    if fragments != [] {
      var n := |fragments| - 1;
      assert fragments == fragments[..n] + [fragments[n]];
      SortedKeeps(fragments[..n]);
      InsertKeeps(Sorted(fragments[..n]), fragments[n]);
    }
  }

  // ---------------------------------------------------------------- the whole section

  function Within(fragments: seq<Fragment>, s: Section): seq<Fragment> {
    if fragments == [] then []
    else
      var f := fragments[|fragments| - 1];
      Within(fragments[..|fragments| - 1], s) + if f.section == s then [f] else []
  }

  /** The fragments of the first `k` headings, in the order they are rendered. */
  function RenderOrder(fragments: seq<Fragment>, k: nat): seq<Fragment>
    requires k <= 6
  {
    if k == 0 then [] else RenderOrder(fragments, k - 1) + Sorted(Within(fragments, SECTIONS[k - 1]))
  }

  /** Earlier headings first, and under one heading the larger key first. */
  predicate Precedes(f: Fragment, g: Fragment) {
    Rank(f.section) < Rank(g.section) || (f.section == g.section && KeyAtMost(g, f))
  }

  predicate InOrder(s: seq<Fragment>) {
    forall i, j | 0 <= i < j < |s| :: Precedes(s[i], s[j])
  }

  lemma {:induction false} WithinCount(fragments: seq<Fragment>, s: Section, f: Fragment)
    ensures multiset(Within(fragments, s))[f] == if f.section == s then multiset(fragments)[f] else 0
  {
    if fragments != [] {
      var n := |fragments| - 1;
      WithinCount(fragments[..n], s, f);
      assert fragments == fragments[..n] + [fragments[n]];
    }
  }

  lemma RankedSections(k: nat)
    requires k < 6
    ensures Rank(SECTIONS[k]) == k
  {
  }

  lemma {:induction false} OrderCount(fragments: seq<Fragment>, k: nat, f: Fragment)
    requires k <= 6
    ensures multiset(RenderOrder(fragments, k))[f] == if Rank(f.section) < k then multiset(fragments)[f] else 0
    decreases k
  {
    if k > 0 {
      OrderCount(fragments, k - 1, f);
      RankedSections(k - 1);
      WithinCount(fragments, SECTIONS[k - 1], f);
      SortedKeeps(Within(fragments, SECTIONS[k - 1]));
    }
  }

  /** Every fragment is rendered exactly as often as it was loaded. */
  lemma EveryFragmentIsRenderedOnce(fragments: seq<Fragment>)
    ensures multiset(RenderOrder(fragments, 6)) == multiset(fragments)
  {
    forall f: Fragment ensures multiset(RenderOrder(fragments, 6))[f] == multiset(fragments)[f] {
      OrderCount(fragments, 6, f);
    }
  }

  lemma {:induction false} RenderedInOrder(fragments: seq<Fragment>, k: nat)
    requires k <= 6
    ensures InOrder(RenderOrder(fragments, k))
    ensures forall f | f in RenderOrder(fragments, k) :: Rank(f.section) < k
    decreases k
  {
    forall f | f in RenderOrder(fragments, k) ensures Rank(f.section) < k {
      OrderCount(fragments, k, f);
      assert f in multiset(RenderOrder(fragments, k));
    }
    if k > 0 {
      RenderedInOrder(fragments, k - 1);
      var s := SECTIONS[k - 1];
      var front, last := RenderOrder(fragments, k - 1), Sorted(Within(fragments, s));
      RankedSections(k - 1);
      SortedKeeps(Within(fragments, s));
      forall f | f in last ensures f.section == s {
        WithinCount(fragments, s, f);
        assert f in multiset(last);
      }
      AppendInOrder(front, last);
    }
  }

  lemma AppendInOrder(front: seq<Fragment>, last: seq<Fragment>)
    requires InOrder(front) && Descending(last)
    requires forall f, g | f in front && g in last :: Rank(f.section) < Rank(g.section)
    requires forall f, g | f in last && g in last :: f.section == g.section
    ensures InOrder(front + last)
  {
    var s := front + last;
    forall i, j | 0 <= i < j < |s| ensures Precedes(s[i], s[j]) {
      if i >= |front| {
        assert s[i] == last[i - |front|] && s[j] == last[j - |front|];
      } else if j < |front| {
        assert s[i] == front[i] && s[j] == front[j];
      } else {
        assert s[i] in front && s[j] in last;
      }
    }
  }

  // ---------------------------------------------------------------- one order only

  /** Two fragments of one section have different stems: their file names differ. */
  predicate DistinctNames(fragments: seq<Fragment>) {
    forall f, g | f in fragments && g in fragments && f.section == g.section && f.stem == g.stem :: f == g
  }

  lemma LastIsDetermined(a: seq<Fragment>, b: seq<Fragment>)
    requires InOrder(a) && InOrder(b) && multiset(a) == multiset(b) && DistinctNames(a) && a != [] && b != []
    ensures a[|a| - 1] == b[|b| - 1]
  {
    var x, y := a[|a| - 1], b[|b| - 1];
    assert x in multiset(b) && y in multiset(a);
    KeyOrder(x, y, y);
    assert x == y || Precedes(x, y);
    assert x == y || Precedes(y, x);
  }

  lemma WithoutLast(a: seq<Fragment>)
    requires a != []
    ensures multiset(a[..|a| - 1]) == multiset(a) - multiset{a[|a| - 1]}
  {
    assert a == a[..|a| - 1] + [a[|a| - 1]];
  }

  lemma {:induction false} OrderIsDetermined(a: seq<Fragment>, b: seq<Fragment>)
    requires InOrder(a) && InOrder(b) && multiset(a) == multiset(b) && DistinctNames(a)
    ensures a == b
  {
    assert |a| == |multiset(a)| == |multiset(b)| == |b|;
    if a != [] {
      var n := |a| - 1;
      LastIsDetermined(a, b);
      WithoutLast(a);
      WithoutLast(b);
      assert DistinctNames(a[..n]) && InOrder(a[..n]) && InOrder(b[..n]);
      OrderIsDetermined(a[..n], b[..n]);
    }
  }

  /** The rendered order does not depend on the order the fragment files are read in. */
  lemma LoadOrderDoesNotMatter(one: seq<Fragment>, other: seq<Fragment>)
    requires multiset(one) == multiset(other) && DistinctNames(one)
    ensures RenderOrder(one, 6) == RenderOrder(other, 6)
  {
    EveryFragmentIsRenderedOnce(one);
    EveryFragmentIsRenderedOnce(other);
    RenderedInOrder(one, 6);
    RenderedInOrder(other, 6);
    var a := RenderOrder(one, 6);
    forall f | f in a ensures f in one {
      assert f in multiset(a);
      assert f in multiset(one);
    }
    OrderIsDetermined(a, RenderOrder(other, 6));
  }

  // ---------------------------------------------------------------- the rendered parts

  /** The pieces `render_section` joins with newlines. */
  datatype Part = Heading | Summary | Gap | Title(section: Section) | Bullet(fragment: Fragment)

  function Bullets(parts: seq<Part>): seq<Fragment> {
    if parts == [] then []
    else
      var p := parts[|parts| - 1];
      Bullets(parts[..|parts| - 1]) + if p.Bullet? then [p.fragment] else []
  }

  /** The title a position stands under. */
  function TitleAt(parts: seq<Part>): Option<Section> {
    if parts == [] then None
    else
      var p := parts[|parts| - 1];
      if p.Title? then Some(p.section) else TitleAt(parts[..|parts| - 1])
  }

  /** Every bullet stands under the title of its own section. */
  predicate WellTitled(parts: seq<Part>) {
    if parts == [] then true
    else
      var front, p := parts[..|parts| - 1], parts[|parts| - 1];
      WellTitled(front) && (p.Bullet? ==> TitleAt(front) == Some(p.fragment.section))
  }

  lemma PartsSnoc(parts: seq<Part>, p: Part)
    ensures Bullets(parts + [p]) == Bullets(parts) + if p.Bullet? then [p.fragment] else []
    ensures TitleAt(parts + [p]) == if p.Title? then Some(p.section) else TitleAt(parts)
    ensures WellTitled(parts + [p]) <==>
              WellTitled(parts) && (p.Bullet? ==> TitleAt(parts) == Some(p.fragment.section))
  {
    assert (parts + [p])[..|parts|] == parts;
  }

  lemma PrefixSnoc(before: seq<Fragment>, fragments: seq<Fragment>, i: nat)
    requires i < |fragments|
    ensures before + fragments[..i] + [fragments[i]] == before + fragments[..i + 1]
  {
  }

  /** Appends the bullets of one section. */
  method AppendBullets(parts: seq<Part>, fragments: seq<Fragment>, ghost s: Section) returns (out: seq<Part>)
    requires WellTitled(parts) && TitleAt(parts) == Some(s)
    requires forall f | f in fragments :: f.section == s
    ensures WellTitled(out) && parts <= out && Bullets(out) == Bullets(parts) + fragments
  {
    out := parts;
    for i := 0 to |fragments|
      invariant WellTitled(out) && TitleAt(out) == Some(s) && parts <= out
      invariant Bullets(out) == Bullets(parts) + fragments[..i]
    {
      PartsSnoc(out, Bullet(fragments[i]));
      PrefixSnoc(Bullets(parts), fragments, i);
      out := out + [Bullet(fragments[i])];
    }
    assert fragments[..|fragments|] == fragments;
  }

  /** The heading, and the summary if there is one. */
  method Opening(hasSummary: bool) returns (parts: seq<Part>)
    ensures parts != [] && parts[0] == Heading && WellTitled(parts) && Bullets(parts) == []
  {
    parts := [];
    PartsSnoc(parts, Heading);
    parts := parts + [Heading];
    PartsSnoc(parts, Gap);
    parts := parts + [Gap];
    if hasSummary {
      PartsSnoc(parts, Summary);
      parts := parts + [Summary];
      PartsSnoc(parts, Gap);
      parts := parts + [Gap];
    }
  }

  /** The loop of `render_section`: all fragments, in order, each under its own title. */
  method RenderParts(fragments: seq<Fragment>, hasSummary: bool) returns (parts: seq<Part>)
    ensures parts != [] && parts[0] == Heading
    ensures Bullets(parts) == RenderOrder(fragments, 6) && WellTitled(parts)
    ensures multiset(Bullets(parts)) == multiset(fragments) && InOrder(Bullets(parts))
  {
    parts := Opening(hasSummary);
    for k := 0 to 6
      invariant parts != [] && parts[0] == Heading && WellTitled(parts)
      invariant Bullets(parts) == RenderOrder(fragments, k)
    {
      parts := RenderOne(parts, fragments, SECTIONS[k]);
    }
    EveryFragmentIsRenderedOnce(fragments);
    RenderedInOrder(fragments, 6);
  }

  lemma SortedStaysWithin(fragments: seq<Fragment>, s: Section)
    ensures forall f | f in Sorted(Within(fragments, s)) :: f.section == s
  {
    SortedKeeps(Within(fragments, s));
    forall f | f in Sorted(Within(fragments, s)) ensures f.section == s {
      WithinCount(fragments, s, f);
      assert f in multiset(Sorted(Within(fragments, s)));
    }
  }

  /** One turn of the loop: nothing for an empty section, else its title and bullets between gaps. */
  method RenderOne(parts: seq<Part>, fragments: seq<Fragment>, s: Section) returns (out: seq<Part>)
    requires WellTitled(parts)
    ensures WellTitled(out) && parts <= out
    ensures Bullets(out) == Bullets(parts) + Sorted(Within(fragments, s))
  {
    var within := Sorted(Within(fragments, s));
    SortedStaysWithin(fragments, s);
    if within == [] {
      return parts;
    }
    out := AppendTitled(parts, within, s);
  }

  method AppendTitled(parts: seq<Part>, fragments: seq<Fragment>, s: Section) returns (out: seq<Part>)
    requires WellTitled(parts)
    requires forall f | f in fragments :: f.section == s
    ensures WellTitled(out) && parts <= out && Bullets(out) == Bullets(parts) + fragments
  {
    out := parts + [Title(s)];
    PartsSnoc(parts, Title(s));
    PartsSnoc(out, Gap);
    out := AppendBullets(out + [Gap], fragments, s);
    PartsSnoc(out, Gap);
    out := out + [Gap];
  }
}
