/**
 The SIEM lines (CEF, LEEF, RFC 5424 structured data) with one reference parser each. The parsers
 follow the formats, not the printers: they look for unprotected delimiters and then unescape.
 */
module SiemFormats {
  import opened Strings
  import opened Options
  import opened Escaping

  datatype Pair = Pair(key: string, value: string)

  predicate PlainKey(k: string) {
    forall i | 0 <= i < |k| :: k[i] != ' ' && k[i] != '=' && k[i] != '\\' && k[i] != '\t'
  }

  predicate PlainKeys(pairs: seq<Pair>) {
    forall i | 0 <= i < |pairs| :: PlainKey(pairs[i].key)
  }

  /** A chain that protects `stop`. */
  predicate Protects(chain: Chain, stop: char) {
    Orderly(chain) && IsSpecial(stop, chain) && stop != '\\'
  }

  // ---------------------------------------------------------------- delimited fields (CEF header)

  /** Every field followed by the delimiter. */
  function PrintFields(fields: seq<string>, stop: char, chain: Chain): string {
    if fields == [] then []
    else Escape(fields[0], chain) + [stop] + PrintFields(fields[1..], stop, chain)
  }

  lemma {:induction false} JoinFields(parts: seq<string>, fields: seq<string>, stop: char, chain: Chain)
    requires |parts| == |fields| > 0 && forall i | 0 <= i < |parts| :: parts[i] == Escape(fields[i], chain)
    ensures Join(parts, [stop]) + [stop] == PrintFields(fields, stop, chain)
    decreases |parts|
  {
    if |parts| > 1 {
      JoinFields(parts[1..], fields[1..], stop, chain);
    }
  }

  function ParseFields(s: string, n: nat, stop: char, chain: Chain): Option<(seq<string>, string)>
    decreases n
  {
    if n == 0 then Some(([], s))
    else
      match SplitAt(s, stop)
      case None => None
      case Some((raw, rest)) =>
        match ParseFields(rest, n - 1, stop, chain)
        case None => None
        case Some((fields, rest')) => Some(([Unescape(raw, chain)] + fields, rest'))
  }

  lemma ParseFieldsStep(field: string, text: string, n: nat, stop: char, chain: Chain)
    requires Protects(chain, stop) && ParseFields(text, n, stop, chain).Some?
    ensures var (fields, rest) := ParseFields(text, n, stop, chain).value;
            ParseFields(Escape(field, chain) + ([stop] + text), n + 1, stop, chain) == Some(([field] + fields, rest))
  {
    SplitAfterEscaped(field, stop, text, chain);
    UnescapeEscape(field, chain);
  }

  /** Every delimited field is recovered, whatever delimiters and backslashes it holds. */
  lemma {:induction false} FieldsRoundTrip(fields: seq<string>, rest: string, stop: char, chain: Chain)
    requires Protects(chain, stop)
    ensures ParseFields(PrintFields(fields, stop, chain) + rest, |fields|, stop, chain) == Some((fields, rest))
  {
    if fields == [] {
      assert PrintFields(fields, stop, chain) + rest == rest;
    } else {
      var e, more := Escape(fields[0], chain), PrintFields(fields[1..], stop, chain);
      FieldsRoundTrip(fields[1..], rest, stop, chain);
      ParseFieldsStep(fields[0], more + rest, |fields| - 1, stop, chain);
      Regroup(e + [stop], more, rest);
      Regroup(e, [stop], more + rest);
      assert [fields[0]] + fields[1..] == fields;
    }
  }

  // ---------------------------------------------------------------- key=value lists

  /** A `key=value` entry; a raw one is printed without escaping. */
  datatype Attr = Attr(key: string, value: string, raw: bool)

  function PairsOf(attrs: seq<Attr>): seq<Pair> {
    seq(|attrs|, i requires 0 <= i < |attrs| => Pair(attrs[i].key, attrs[i].value))
  }

  predicate PlainAttrs(attrs: seq<Attr>) {
    forall i | 0 <= i < |attrs| :: PlainKey(attrs[i].key)
  }

  function Text(a: Attr, chain: Chain): string {
    if a.raw then a.value else Escape(a.value, chain)
  }

  function Assign(a: Attr, chain: Chain): string {
    a.key + "=" + Text(a, chain)
  }

  /** The entries one after the other, separated by `sep`. */
  function PrintAttrs(attrs: seq<Attr>, sep: char, chain: Chain): string {
    if attrs == [] then []
    else if |attrs| == 1 then Assign(attrs[0], chain)
    else Assign(attrs[0], chain) + [sep] + PrintAttrs(attrs[1..], sep, chain)
  }

  lemma {:induction false} JoinAssigns(parts: seq<string>, attrs: seq<Attr>, sep: char, chain: Chain)
    requires |parts| == |attrs| && forall i | 0 <= i < |parts| :: parts[i] == Assign(attrs[i], chain)
    ensures Join(parts, [sep]) == PrintAttrs(attrs, sep, chain)
    decreases |parts|
  {
    if |parts| > 1 {
      JoinAssigns(parts[1..], attrs[1..], sep, chain);
    }
  }

  /** What follows the first value of a printed list. */
  function AfterFirst(attrs: seq<Attr>, sep: char, chain: Chain): string
    requires attrs != []
  {
    if |attrs| == 1 then "" else [sep] + PrintAttrs(attrs[1..], sep, chain)
  }

  /** A printed list starts with its first key, and then its first value. */
  lemma PrintAttrsHead(attrs: seq<Attr>, sep: char, chain: Chain)
    requires attrs != []
    ensures PrintAttrs(attrs, sep, chain)
            == attrs[0].key + ['='] + (Text(attrs[0], chain) + AfterFirst(attrs, sep, chain))
  {
  }

  lemma {:induction false} UnescapeShrinks(s: string, chain: Chain)
    ensures |Unescape(s, chain)| <= |s|
    decreases |s|
  {
    if s != [] {
      if s[0] == '\\' && |s| > 1 {
        UnescapeShrinks(s[2..], chain);
      } else {
        UnescapeShrinks(s[1..], chain);
      }
    }
  }

  /** What an unprotected delimiter cuts off is part of the text. */
  lemma {:induction false} SplitAtCuts(s: string, stop: char)
    ensures SplitAt(s, stop).Some? ==>
              var (raw, rest) := SplitAt(s, stop).value;
              s == raw + ([stop] + rest)
    decreases |s|
  {
    if s != [] && s[0] != stop {
      var n := if s[0] == '\\' && |s| > 1 then 2 else 1;
      SplitAtCuts(s[n..], stop);
      if SplitAt(s[n..], stop).Some? {
        var (raw, rest) := SplitAt(s[n..], stop).value;
        Regroup(s[..n], raw, [stop] + rest);
        assert s == s[..n] + s[n..];
      }
    }
  }

  /** An unprotected delimiter found stays the first one, whatever follows. */
  lemma {:induction false} SplitIsStable(s: string, more: string, stop: char)
    requires SplitAt(s, stop).Some?
    ensures var (raw, rest) := SplitAt(s, stop).value;
            SplitAt(s + more, stop) == Some((raw, rest + more))
    decreases |s|
  {
    if s[0] == stop {
      assert (s + more)[1..] == s[1..] + more;
    } else {
      var n := if s[0] == '\\' && |s| > 1 then 2 else 1;
      SplitIsStable(s[n..], more, stop);
      assert (s + more)[n..] == s[n..] + more && (s + more)[..n] == s[..n];
    }
  }

  // ---------------------------------------------------------------- CEF extensions

  /** Text before and after the last space; without a space everything is after it. */
  function SplitLastSpace(s: string): (string, string) {
    if s == [] then ([], [])
    else
      var n := |s| - 1;
      if s[n] == ' ' then (s[..n], [])
      else
        var (before, after) := SplitLastSpace(s[..n]);
        (before, after + [s[n]])
  }

  /** Values may contain spaces, so a value ends at the last space before the next unprotected `=`. */
  function ParseValues(key: string, s: string, chain: Chain): seq<Pair>
    decreases |s|
  {
    match SplitAt(s, '=')
    case None => [Pair(key, Unescape(s, chain))]
    case Some((raw, rest)) =>
      SplitAtShrinks(s, '=');
      var (value, nextKey) := SplitLastSpace(raw);
      [Pair(key, Unescape(value, chain))] + ParseValues(nextKey, rest, chain)
  }

  function ParseExtensions(s: string, chain: Chain): Option<seq<Pair>> {
    match SplitAt(s, '=')
    case None => None
    case Some((key, rest)) => Some(ParseValues(key, rest, chain))
  }

  lemma {:induction false} SplitAtShrinks(s: string, stop: char)
    ensures SplitAt(s, stop).Some? ==> |SplitAt(s, stop).value.1| < |s|
    decreases |s|
  {
    if s != [] && s[0] != stop {
      var n := if s[0] == '\\' && |s| > 1 then 2 else 1;
      SplitAtShrinks(s[n..], stop);
    }
  }

  lemma {:induction false} LastSpaceSplits(before: string, after: string)
    requires ' ' !in after
    ensures SplitLastSpace(before + ([' '] + after)) == (before, after)
  {
    var s := before + ([' '] + after);
    var n := |s| - 1;
    if after == [] {
      assert s[..n] == before;
    } else {
      assert s[..n] == before + ([' '] + after[..|after| - 1]);
      LastSpaceSplits(before, after[..|after| - 1]);
      assert after[..|after| - 1] + [s[n]] == after;
    }
  }

  /** Without a delimiter of its own a text is split at the one behind the next key, even when it
      ends in a lone backslash. */
  lemma {:induction false} SplitAtThrough(text: string, plain: string, stop: char, rest: string)
    requires SplitAt(text, stop).None? && plain != [] && '\\' !in plain && stop !in plain
    ensures SplitAt(text + (plain + [stop] + rest), stop) == Some((text + plain, rest))
    decreases |text|
  {
    var tail := plain + [stop] + rest;
    var s := text + tail;
    if text == [] {
      assert s == tail;
      SplitAtPlain(plain, stop, rest);
      assert text + plain == plain;
    } else if text[0] == '\\' && |text| == 1 {
      assert s[2..] == plain[1..] + [stop] + rest;
      SplitAtPlain(plain[1..], stop, rest);
      assert s[..2] + plain[1..] == text + plain;
    } else {
      var n := if text[0] == '\\' then 2 else 1;
      SplitAtThrough(text[n..], plain, stop, rest);
      assert s[n..] == text[n..] + tail && s[..n] == text[..n];
      assert text[..n] + (text[n..] + plain) == text + plain;
    }
  }

  /** A value whose printed text is taken whole and stands for it. Escaped values always are legible;
      a raw one can be checked before it is printed. */
  predicate Legible(a: Attr, chain: Chain) {
    SplitAt(Text(a, chain), '=').None? && Unescape(Text(a, chain), chain) == a.value
  }

  predicate AllLegible(attrs: seq<Attr>, chain: Chain) {
    forall i | 0 <= i < |attrs| :: Legible(attrs[i], chain)
  }

  lemma EscapedIsLegible(a: Attr, chain: Chain)
    requires Protects(chain, '=') && !a.raw
    ensures Legible(a, chain)
  {
    NoSplitInEscaped(a.value, '=', chain);
    UnescapeEscape(a.value, chain);
  }

  /** One value and the key behind it: the reader takes the value exactly when it is legible. */
  lemma ParseValuesStep(a: Attr, k: string, rest: string, chain: Chain)
    requires PlainKey(k) && (a.raw || Protects(chain, '='))
    ensures
      var parsed := ParseValues(a.key, Text(a, chain) + ([' '] + k + ['='] + rest), chain);
      if Legible(a, chain) then parsed == [Pair(a.key, a.value)] + ParseValues(k, rest, chain)
      else parsed[0].key == a.key && parsed[0].value != a.value
  {
    var text := Text(a, chain);
    var tail := [' '] + k + ['='] + rest;
    if !a.raw { EscapedIsLegible(a, chain); }
    if SplitAt(text, '=').None? {
      SplitAtThrough(text, [' '] + k, '=', rest);
      LastSpaceSplits(text, k);
    } else {
      SplitIsStable(text, tail, '=');
      SplitAtCuts(text, '=');
      var raw := SplitAt(text, '=').value.0;
      LastSpaceCuts(raw);
      UnescapeShrinks(SplitLastSpace(raw).0, chain);
    }
  }

  lemma {:induction false} LastSpaceCuts(s: string)
    ensures |SplitLastSpace(s).0| <= |s|
  {
    if s != [] { LastSpaceCuts(s[..|s| - 1]); }
  }

  lemma ParseValuesLast(a: Attr, chain: Chain)
    requires a.raw || Protects(chain, '=')
    ensures
      var parsed := ParseValues(a.key, Text(a, chain), chain);
      if Legible(a, chain) then parsed == [Pair(a.key, a.value)]
      else parsed[0].key == a.key && parsed[0].value != a.value
  {
    var text := Text(a, chain);
    if !a.raw { EscapedIsLegible(a, chain); }
    if SplitAt(text, '=').Some? {
      SplitAtCuts(text, '=');
      var raw := SplitAt(text, '=').value.0;
      LastSpaceCuts(raw);
      UnescapeShrinks(SplitLastSpace(raw).0, chain);
    }
  }

  lemma PairsHead(attrs: seq<Attr>)
    requires attrs != []
    ensures PairsOf(attrs) == [Pair(attrs[0].key, attrs[0].value)] + PairsOf(attrs[1..])
  {
  }

  lemma SplitLegible(attrs: seq<Attr>, chain: Chain)
    requires attrs != []
    ensures AllLegible(attrs, chain) <==> Legible(attrs[0], chain) && AllLegible(attrs[1..], chain)
  {
    if Legible(attrs[0], chain) && AllLegible(attrs[1..], chain) {
      forall i | 0 <= i < |attrs| ensures Legible(attrs[i], chain) {
        if i > 0 { assert attrs[1..][i - 1] == attrs[i]; }
      }
    }
  }

  lemma Flatten(a: string, b: string, c: string, d: string, e: string)
    ensures a + (b + (c + d + e)) == a + (b + c + d + e)
  {
  }

  lemma {:induction false} ValuesRoundTrip(attrs: seq<Attr>, chain: Chain)
    requires attrs != [] && PlainAttrs(attrs) && Protects(chain, '=')
    ensures ParseValues(attrs[0].key, Text(attrs[0], chain) + AfterFirst(attrs, ' ', chain), chain) == PairsOf(attrs)
       <==> AllLegible(attrs, chain)
  {
    var text := Text(attrs[0], chain);
    PairsHead(attrs);
    SplitLegible(attrs, chain);
    if |attrs| == 1 {
      assert text + AfterFirst(attrs, ' ', chain) == text;
      ParseValuesLast(attrs[0], chain);
    } else {
      var more := attrs[1..];
      ValuesRoundTrip(more, chain);
      PrintAttrsHead(more, ' ', chain);
      var rest := Text(more[0], chain) + AfterFirst(more, ' ', chain);
      Flatten(text, [' '], more[0].key, ['='], rest);
      ParseValuesStep(attrs[0], more[0].key, rest, chain);
      OneStep(ParseValues(attrs[0].key, text + AfterFirst(attrs, ' ', chain), chain), attrs,
              ParseValues(more[0].key, rest, chain), Legible(attrs[0], chain));
    }
  }

  lemma SplitPrefix(attrs: seq<Attr>, n: nat, chain: Chain)
    requires 0 < n < |attrs| && AllLegible(attrs[..n], chain)
    ensures Legible(attrs[0], chain) && AllLegible(attrs[1..][..n - 1], chain) && attrs[1..][n - 1] == attrs[n]
  {
    assert attrs[..n][0] == attrs[0];
    assert attrs[..n][1..] == attrs[1..][..n - 1];
    SplitLegible(attrs[..n], chain);
  }

  lemma Shift(attrs: seq<Attr>, n: nat, tail: seq<Pair>)
    requires 0 < n < |attrs| && n - 1 < |tail| && tail[..n - 1] == PairsOf(attrs[1..][..n - 1])
    ensures
      var parsed := [Pair(attrs[0].key, attrs[0].value)] + tail;
      parsed[..n] == PairsOf(attrs[..n]) && parsed[n] == tail[n - 1]
  {
    assert attrs[..n][0] == attrs[0] && attrs[..n][1..] == attrs[1..][..n - 1];
    PairsHead(attrs[..n]);
  }

  /** The first value that is not legible is misread, after all before it were read. */
  lemma {:induction false} ValuesUpTo(attrs: seq<Attr>, n: nat, chain: Chain)
    requires n < |attrs| && PlainAttrs(attrs) && Protects(chain, '=')
    requires AllLegible(attrs[..n], chain) && !Legible(attrs[n], chain)
    ensures
      var parsed := ParseValues(attrs[0].key, Text(attrs[0], chain) + AfterFirst(attrs, ' ', chain), chain);
      && n < |parsed| && parsed[..n] == PairsOf(attrs[..n])
      && parsed[n].key == attrs[n].key && parsed[n].value != attrs[n].value
    decreases n
  {
    var text := Text(attrs[0], chain);
    if |attrs| == 1 {
      assert text + AfterFirst(attrs, ' ', chain) == text;
      ParseValuesLast(attrs[0], chain);
    } else {
      var more := attrs[1..];
      PrintAttrsHead(more, ' ', chain);
      var rest := Text(more[0], chain) + AfterFirst(more, ' ', chain);
      Flatten(text, [' '], more[0].key, ['='], rest);
      ParseValuesStep(attrs[0], more[0].key, rest, chain);
      if n > 0 {
        SplitPrefix(attrs, n, chain);
        ValuesUpTo(more, n - 1, chain);
        Shift(attrs, n, ParseValues(more[0].key, rest, chain));
      }
    }
  }

  /** Lists that agree in their heads are equal exactly when their tails are. */
  lemma OneStep(parsed: seq<Pair>, attrs: seq<Attr>, tail: seq<Pair>, head: bool)
    requires attrs != [] && (!head ==> parsed != [] && parsed[0] != Pair(attrs[0].key, attrs[0].value))
    requires head ==> parsed == [Pair(attrs[0].key, attrs[0].value)] + tail
    ensures parsed == PairsOf(attrs) <==> head && tail == PairsOf(attrs[1..])
  {
    PairsHead(attrs);
    if head && parsed == PairsOf(attrs) {
      assert parsed[1..] == tail && PairsOf(attrs)[1..] == PairsOf(attrs[1..]);
    }
  }

  /** Every extension is read back exactly when the raw values are legible: escaped ones are, with
      spaces, equals signs, line breaks and trailing backslashes. */
  lemma ExtensionsRoundTrip(attrs: seq<Attr>, chain: Chain)
    requires attrs != [] && PlainAttrs(attrs) && Protects(chain, '=')
    ensures ParseExtensions(PrintAttrs(attrs, ' ', chain), chain) == Some(PairsOf(attrs)) <==> AllLegible(attrs, chain)
  {
    ValuesRoundTrip(attrs, chain);
    PrintAttrsHead(attrs, ' ', chain);
    SplitAtPlain(attrs[0].key, '=', Text(attrs[0], chain) + AfterFirst(attrs, ' ', chain));
  }

  // ---------------------------------------------------------------- LEEF attributes

  /** Attributes are separated by tabs; a key ends at the first `=`, the value may contain more. */
  function ParseAttributes(s: string, chain: Chain): (r: Option<seq<Pair>>)
    ensures r.Some? ==> r.value != []
    decreases |s|
  {
    match SplitAt(s, '=')
    case None => None
    case Some((key, value)) =>
      SplitAtShrinks(s, '=');
      match SplitAt(value, '\t')
      case None => Some([Pair(key, Unescape(value, chain))])
      case Some((raw, rest)) =>
        SplitAtShrinks(value, '\t');
        match ParseAttributes(rest, chain)
        case None => None
        case Some(pairs) => Some([Pair(key, Unescape(raw, chain))] + pairs)
  }

  /** The same for a value that ends at a tab or, when it is the last one, with the line: a lone
      backslash before a tab would protect it. */
  predicate LegibleField(a: Attr, last: bool, chain: Chain) {
    && Unescape(Text(a, chain), chain) == a.value
    && if last then SplitAt(Text(a, chain), '\t').None?
       else SplitAt(Text(a, chain) + ['\t'], '\t') == Some((Text(a, chain), []))
  }

  /** The attributes of a line are legible, if more follow or not. */
  predicate AllLegibleFields(attrs: seq<Attr>, more: bool, chain: Chain) {
    forall i | 0 <= i < |attrs| :: LegibleField(attrs[i], !more && i == |attrs| - 1, chain)
  }

  lemma EscapedIsLegibleField(a: Attr, last: bool, chain: Chain)
    requires Protects(chain, '\t') && !a.raw
    ensures LegibleField(a, last, chain)
  {
    NoSplitInEscaped(a.value, '\t', chain);
    SplitAfterEscaped(a.value, '\t', [], chain);
    assert ['\t'] + [] == ['\t'];
    UnescapeEscape(a.value, chain);
  }

  function Tabs(s: string): nat {
    if s == [] then 0 else (if s[0] == '\t' then 1 else 0) + Tabs(s[1..])
  }

  lemma {:induction false} TabsAdd(a: string, b: string)
    ensures Tabs(a + b) == Tabs(a) + Tabs(b)
  {
    if a == [] {
      assert a + b == b;
    } else {
      assert (a + b)[1..] == a[1..] + b;
      TabsAdd(a[1..], b);
    }
  }

  /** Unescaping never loses a tab, when tabs are no codes. */
  lemma {:induction false} UnescapeKeepsTabs(s: string, chain: Chain)
    requires forall i | 0 <= i < |chain| :: chain[i].code != '\t'
    ensures Tabs(Unescape(s, chain)) >= Tabs(s)
    decreases |s|
  {
    if s != [] {
      if s[0] == '\\' && |s| > 1 {
        UnescapeKeepsTabs(s[2..], chain);
        CodesAreListed(s[1], chain);
        TabsAdd(Unpair(s[1], chain), Unescape(s[2..], chain));
        assert s[1..][1..] == s[2..];
        TabsOfPair(s[1], chain);
      } else {
        UnescapeKeepsTabs(s[1..], chain);
        TabsAdd([s[0]], Unescape(s[1..], chain));
        assert [s[0]][1..] == [];
      }
    }
  }

  lemma TabsOfPair(code: char, chain: Chain)
    requires SpecialOf(code, chain).Some? ==> code != '\t'
    ensures Tabs(Unpair(code, chain)) >= if code == '\t' then 1 else 0
  {
    assert ['\\', code][1..] == [code] && [code][1..] == [];
  }

  lemma {:induction false} CodesAreListed(code: char, chain: Chain)
    ensures SpecialOf(code, chain).Some? ==> exists i | 0 <= i < |chain| :: chain[i].code == code
  {
    if chain != [] && chain[0].code != code {
      CodesAreListed(code, chain[1..]);
      if SpecialOf(code, chain[1..]).Some? {
        var i :| 0 <= i < |chain[1..]| && chain[1..][i].code == code;
        assert chain[i + 1].code == code;
      }
    }
  }

  lemma EmptyHidesNothing()
    ensures SplitAt([] + ['\t'], '\t') == Some(([], []))
  {
    assert [] + ['\t'] == ['\t'] && ['\t'][1..] == [];
  }

  /** A text that hides the tab behind it swallows it. */
  lemma {:induction false} HiddenTabIsSwallowed(text: string, rest: string)
    requires SplitAt(text, '\t').None? && SplitAt(text + ['\t'], '\t') != Some((text, []))
    ensures var split := SplitAt(text + (['\t'] + rest), '\t');
            split.Some? ==> text + ['\t'] <= split.value.0
    decreases |text|
  {
    var s := text + (['\t'] + rest);
    EmptyHidesNothing();
    assert text != [];
    if text[0] == '\\' && |text| == 1 {
      assert s[..2] == text + ['\t'];
    } else {
      var n := if text[0] == '\\' then 2 else 1;
      assert s[n..] == text[n..] + (['\t'] + rest) && s[..n] == text[..n];
      assert (text + ['\t'])[n..] == text[n..] + ['\t'] && (text + ['\t'])[..n] == text[..n];
      assert text[..n] + text[n..] == text;
      HiddenTabIsSwallowed(text[n..], rest);
      assert text[..n] + (text[n..] + ['\t']) == text + ['\t'];
    }
  }

  /** The value part of an attribute that is not the last one. */
  lemma TakeField(a: Attr, rest: string, chain: Chain)
    requires (a.raw || Protects(chain, '\t')) && forall i | 0 <= i < |chain| :: chain[i].code != '\t'
    ensures
      var split := SplitAt(Text(a, chain) + (['\t'] + rest), '\t');
      if LegibleField(a, false, chain) then split == Some((Text(a, chain), rest))
      else Unescape(if split.Some? then split.value.0 else Text(a, chain) + (['\t'] + rest), chain) != a.value
  {
    var text := Text(a, chain);
    var s := text + (['\t'] + rest);
    if !a.raw { EscapedIsLegibleField(a, false, chain); }
    assert s == (text + ['\t']) + rest;
    if SplitAt(text + ['\t'], '\t') == Some((text, [])) {
      SplitIsStable(text + ['\t'], rest, '\t');
      assert [] + rest == rest;
    } else if SplitAt(text, '\t').Some? {
      SplitIsStable(text, ['\t'] + rest, '\t');
      SplitAtCuts(text, '\t');
      UnescapeShrinks(SplitAt(text, '\t').value.0, chain);
    } else {
      HiddenTabIsSwallowed(text, rest);
      SwallowedTabShows(text, if SplitAt(s, '\t').Some? then SplitAt(s, '\t').value.0 else s, chain);
    }
  }

  lemma SwallowedTabShows(text: string, raw: string, chain: Chain)
    requires text + ['\t'] <= raw && forall i | 0 <= i < |chain| :: chain[i].code != '\t'
    ensures Unescape(raw, chain) != text
  {
    var more := raw[|text| + 1..];
    assert raw == text + (['\t'] + more);
    TabsAdd(text, ['\t'] + more);
    assert (['\t'] + more)[1..] == more;
    UnescapeKeepsTabs(raw, chain);
  }

  lemma SplitLegibleFields(attrs: seq<Attr>, chain: Chain)
    requires attrs != []
    ensures AllLegibleFields(attrs, false, chain) <==>
              LegibleField(attrs[0], |attrs| == 1, chain) && AllLegibleFields(attrs[1..], false, chain)
  {
    if LegibleField(attrs[0], |attrs| == 1, chain) && AllLegibleFields(attrs[1..], false, chain) {
      forall i | 0 <= i < |attrs| ensures LegibleField(attrs[i], i == |attrs| - 1, chain) {
        if i > 0 { assert attrs[1..][i - 1] == attrs[i]; }
      }
    } else if AllLegibleFields(attrs, false, chain) {
      forall i | 0 <= i < |attrs[1..]| ensures LegibleField(attrs[1..][i], i == |attrs[1..]| - 1, chain) {
        assert attrs[1..][i] == attrs[i + 1];
      }
    }
  }

  lemma LastField(a: Attr, chain: Chain)
    requires PlainKey(a.key) && (a.raw || Protects(chain, '\t'))
    ensures ParseAttributes(a.key + ['='] + Text(a, chain), chain) == Some([Pair(a.key, a.value)])
       <==> LegibleField(a, true, chain)
  {
    SplitAtPlain(a.key, '=', Text(a, chain));
    if !a.raw { EscapedIsLegibleField(a, true, chain); }
    var parsed := ParseAttributes(a.key + ['='] + Text(a, chain), chain);
    if SplitAt(Text(a, chain), '\t').Some? && parsed.Some? {
      assert |parsed.value| >= 2;
    }
  }

  lemma {:induction false} AttributesRoundTrip(attrs: seq<Attr>, chain: Chain)
    requires attrs != [] && PlainAttrs(attrs) && Protects(chain, '\t')
    requires forall i | 0 <= i < |chain| :: chain[i].code != '\t'
    ensures ParseAttributes(PrintAttrs(attrs, '\t', chain), chain) == Some(PairsOf(attrs))
       <==> AllLegibleFields(attrs, false, chain)
  {
    var text := Text(attrs[0], chain);
    PrintAttrsHead(attrs, '\t', chain);
    PairsHead(attrs);
    SplitLegibleFields(attrs, chain);
    SplitAtPlain(attrs[0].key, '=', text + AfterFirst(attrs, '\t', chain));
    if |attrs| == 1 {
      assert text + AfterFirst(attrs, '\t', chain) == text;
      LastField(attrs[0], chain);
      assert PairsOf(attrs) == [Pair(attrs[0].key, attrs[0].value)];
    } else {
      var rest := PrintAttrs(attrs[1..], '\t', chain);
      AttributesRoundTrip(attrs[1..], chain);
      TakeField(attrs[0], rest, chain);
      FieldThenRest(attrs, rest, chain);
    }
  }

  lemma FieldThenRest(attrs: seq<Attr>, rest: string, chain: Chain)
    requires |attrs| > 1
    requires
      var split := SplitAt(Text(attrs[0], chain) + (['\t'] + rest), '\t');
      if LegibleField(attrs[0], false, chain) then split == Some((Text(attrs[0], chain), rest))
      else Unescape(if split.Some? then split.value.0 else Text(attrs[0], chain) + (['\t'] + rest), chain) != attrs[0].value
    requires SplitAt(attrs[0].key + ['='] + (Text(attrs[0], chain) + (['\t'] + rest)), '=')
             == Some((attrs[0].key, Text(attrs[0], chain) + (['\t'] + rest)))
    ensures ParseAttributes(attrs[0].key + ['='] + (Text(attrs[0], chain) + (['\t'] + rest)), chain) == Some(PairsOf(attrs))
       <==> LegibleField(attrs[0], false, chain) && ParseAttributes(rest, chain) == Some(PairsOf(attrs[1..]))
  {
    PairsHead(attrs);
    var s := attrs[0].key + ['='] + (Text(attrs[0], chain) + (['\t'] + rest));
    var parsed := ParseAttributes(s, chain);
    assert |PairsOf(attrs)| >= 2 && PairsOf(attrs)[0] == Pair(attrs[0].key, attrs[0].value);
    if LegibleField(attrs[0], false, chain) && parsed.Some? {
      OneStep(parsed.value, attrs, ParseAttributes(rest, chain).value, true);
    } else if parsed.Some? && SplitAt(Text(attrs[0], chain) + (['\t'] + rest), '\t').None? {
      assert |parsed.value| == 1;
    } else if parsed.Some? {
      assert parsed.value[0] != PairsOf(attrs)[0];
    }
  }

  /** Attributes of which the one at position `n` is the first that is misread. */
  predicate MisreadAt(parsed: Option<seq<Pair>>, attrs: seq<Attr>, n: nat)
    requires n < |attrs|
  {
    parsed.Some? ==>
      && n < |parsed.value| && parsed.value[..n] == PairsOf(attrs[..n])
      && parsed.value[n].key == attrs[n].key && parsed.value[n].value != attrs[n].value
  }

  lemma LastFieldMisread(a: Attr, chain: Chain)
    requires PlainKey(a.key) && (a.raw || Protects(chain, '\t')) && !LegibleField(a, true, chain)
    ensures MisreadAt(ParseAttributes(a.key + ['='] + Text(a, chain), chain), [a], 0)
  {
    var text := Text(a, chain);
    SplitAtPlain(a.key, '=', text);
    if !a.raw { EscapedIsLegibleField(a, true, chain); }
    if SplitAt(text, '\t').Some? {
      SplitAtCuts(text, '\t');
      UnescapeShrinks(SplitAt(text, '\t').value.0, chain);
    }
  }

  lemma FieldPrefix(attrs: seq<Attr>, n: nat, chain: Chain)
    requires 0 < n < |attrs| && AllLegibleFields(attrs[..n], true, chain)
    ensures LegibleField(attrs[0], false, chain) && attrs[1..][n - 1] == attrs[n]
    ensures AllLegibleFields(attrs[1..][..n - 1], true, chain)
  {
    var front, prefix := attrs[..n], attrs[1..][..n - 1];
    assert front[0] == attrs[0];
    assert forall i | 0 <= i < |prefix| :: prefix[i] == front[i + 1];
  }

  /** An attribute and what follows it. */
  function FieldText(a: Attr, rest: string, chain: Chain): string {
    a.key + ['='] + (Text(a, chain) + (['\t'] + rest))
  }

  lemma FirstFieldMisread(attrs: seq<Attr>, rest: string, chain: Chain)
    requires |attrs| > 1 && PlainKey(attrs[0].key) && Protects(chain, '\t') && !LegibleField(attrs[0], false, chain)
    requires forall i | 0 <= i < |chain| :: chain[i].code != '\t'
    ensures MisreadAt(ParseAttributes(FieldText(attrs[0], rest, chain), chain), attrs, 0)
  {
    SplitAtPlain(attrs[0].key, '=', Text(attrs[0], chain) + (['\t'] + rest));
    TakeField(attrs[0], rest, chain);
  }

  lemma LaterFieldMisread(attrs: seq<Attr>, n: nat, rest: string, chain: Chain)
    requires 0 < n < |attrs| && PlainKey(attrs[0].key) && Protects(chain, '\t') && LegibleField(attrs[0], false, chain)
    requires forall i | 0 <= i < |chain| :: chain[i].code != '\t'
    requires MisreadAt(ParseAttributes(rest, chain), attrs[1..], n - 1)
    ensures MisreadAt(ParseAttributes(FieldText(attrs[0], rest, chain), chain), attrs, n)
  {
    SplitAtPlain(attrs[0].key, '=', Text(attrs[0], chain) + (['\t'] + rest));
    TakeField(attrs[0], rest, chain);
    var tail := ParseAttributes(rest, chain);
    if tail.Some? {
      Shift(attrs, n, tail.value);
      assert attrs[1..][n - 1] == attrs[n];
    }
  }

  /** The first attribute that is not legible is misread, after all before it were read. */
  lemma {:induction false} FieldsUpTo(attrs: seq<Attr>, n: nat, chain: Chain)
    requires n < |attrs| && PlainAttrs(attrs) && Protects(chain, '\t')
    requires forall i | 0 <= i < |chain| :: chain[i].code != '\t'
    requires AllLegibleFields(attrs[..n], true, chain) && !LegibleField(attrs[n], n == |attrs| - 1, chain)
    ensures MisreadAt(ParseAttributes(PrintAttrs(attrs, '\t', chain), chain), attrs, n)
    decreases n
  {
    var text := Text(attrs[0], chain);
    PrintAttrsHead(attrs, '\t', chain);
    if |attrs| == 1 {
      assert text + AfterFirst(attrs, '\t', chain) == text;
      LastFieldMisread(attrs[0], chain);
      assert attrs == [attrs[0]];
    } else {
      var rest := PrintAttrs(attrs[1..], '\t', chain);
      if n == 0 {
        FirstFieldMisread(attrs, rest, chain);
      } else {
        FieldPrefix(attrs, n, chain);
        FieldsUpTo(attrs[1..], n - 1, chain);
        LaterFieldMisread(attrs, n, rest, chain);
      }
    }
  }

  // ---------------------------------------------------------------- RFC 5424 structured data

  function Param(key: string, escaped: string): string {
    key + "=\"" + escaped + "\""
  }

  /** `f'{key}="{escape(value)}"'` for every pair, each after a space, then the closing bracket. */
  function PrintParams(pairs: seq<Pair>, chain: Chain): string {
    if pairs == [] then "]"
    else " " + (Param(pairs[0].key, Escape(pairs[0].value, chain)) + PrintParams(pairs[1..], chain))
  }

  /** SD-PARAMs up to the bracket that closes the element, and the text after it. */
  function ParseParams(s: string, chain: Chain): Option<(seq<Pair>, string)>
    decreases |s|
  {
    if s == [] then None
    else if s[0] == ']' then Some(([], s[1..]))
    else if s[0] != ' ' then None
    else
      match SplitAt(s[1..], '=')
      case None => None
      case Some((key, quoted)) =>
        SplitAtShrinks(s[1..], '=');
        if quoted == [] || quoted[0] != '"' then None
        else
          match SplitAt(quoted[1..], '"')
          case None => None
          case Some((raw, rest)) =>
            SplitAtShrinks(quoted[1..], '"');
            match ParseParams(rest, chain)
            case None => None
            case Some((pairs, rest')) => Some(([Pair(key, Unescape(raw, chain))] + pairs, rest'))
  }

  lemma ParamSplits(key: string, v: string, tail: string, chain: Chain)
    requires PlainKey(key) && Protects(chain, '"')
    ensures
      var quoted := ['"'] + (Escape(v, chain) + (['"'] + tail));
      && SplitAt(Param(key, Escape(v, chain)) + tail, '=') == Some((key, quoted))
      && SplitAt(quoted[1..], '"') == Some((Escape(v, chain), tail))
  {
    var e := Escape(v, chain);
    var quoted := ['"'] + (e + (['"'] + tail));
    assert Param(key, e) + tail == key + ['='] + quoted;
    SplitAtPlain(key, '=', quoted);
    assert quoted[1..] == e + (['"'] + tail);
    SplitAfterEscaped(v, '"', tail, chain);
  }

  lemma ParseParamsStep(key: string, v: string, tail: string, chain: Chain)
    requires PlainKey(key) && Protects(chain, '"') && ParseParams(tail, chain).Some?
    ensures var (pairs, rest) := ParseParams(tail, chain).value;
            ParseParams([' '] + (Param(key, Escape(v, chain)) + tail), chain) == Some(([Pair(key, v)] + pairs, rest))
  {
    ParamSplits(key, v, tail, chain);
    UnescapeEscape(v, chain);
  }

  /** Every SD-PARAM of section 6.3.3 of RFC 5424 is recovered, and the element ends where the
      printer closed it, whatever quotes, brackets and backslashes the values hold. */
  lemma {:induction false} ParamsRoundTrip(pairs: seq<Pair>, rest: string, chain: Chain)
    requires PlainKeys(pairs) && Protects(chain, '"')
    ensures ParseParams(PrintParams(pairs, chain) + rest, chain) == Some((pairs, rest))
  {
    var s := PrintParams(pairs, chain) + rest;
    if pairs == [] {
      assert s[1..] == rest;
    } else {
      var tail := PrintParams(pairs[1..], chain) + rest;
      var param := Param(pairs[0].key, Escape(pairs[0].value, chain));
      Regroup([' '], param + PrintParams(pairs[1..], chain), rest);
      Regroup(param, PrintParams(pairs[1..], chain), rest);
      ParamsRoundTrip(pairs[1..], rest, chain);
      ParseParamsStep(pairs[0].key, pairs[0].value, tail, chain);
      assert [pairs[0]] + pairs[1..] == pairs;
    }
  }

  // ---------------------------------------------------------------- the three formatters' lines

  const CEF_HEADER: Chain := [Replacement('\\', '\\'), Replacement('|', '|')]
  const CEF_EXTENSION: Chain :=
    [Replacement('\\', '\\'), Replacement('=', '='), Replacement('\n', 'n'), Replacement('\r', 'r')]
  const LEEF_VALUE: Chain :=
    [Replacement('\\', '\\'), Replacement('\t', 't'), Replacement('\n', 'n'), Replacement('\r', 'r')]
  const SD_VALUE: Chain := [Replacement('\\', '\\'), Replacement('"', '"'), Replacement(']', ']')]

  lemma ChainsProtect()
    ensures Protects(CEF_HEADER, '|') && Protects(CEF_EXTENSION, '=')
    ensures Protects(LEEF_VALUE, '\t') && Protects(SD_VALUE, '"')
    ensures forall i | 0 <= i < |LEEF_VALUE| :: LEEF_VALUE[i].code != '\t'
  {
  }

  function ReplacedFields(fields: seq<string>, chain: Chain): seq<string> {
    seq(|fields|, i requires 0 <= i < |fields| => ReplaceAll(fields[i], chain))
  }

  /** The strings the formatters append: a raw value as it is, any other through the replacements. */
  function Parts(attrs: seq<Attr>, chain: Chain): seq<string> {
    seq(|attrs|, i requires 0 <= i < |attrs| =>
      attrs[i].key + "=" + (if attrs[i].raw then attrs[i].value else ReplaceAll(attrs[i].value, chain)))
  }

  /** `"|".join(header fields) + "|" + " ".join(extensions)`. */
  function CefText(fields: seq<string>, attrs: seq<Attr>, header: Chain, extension: Chain): string {
    Join(ReplacedFields(fields, header), "|") + "|" + Join(Parts(attrs, extension), " ")
  }

  datatype CefLine = CefLine(fields: seq<string>, pairs: seq<Pair>)

  /** `n` header fields, then the extension. */
  function ParseCef(s: string, n: nat, header: Chain, extension: Chain): Option<CefLine> {
    match ParseFields(s, n, '|', header)
    case None => None
    case Some((fields, rest)) =>
      match ParseExtensions(rest, extension)
      case None => None
      case Some(pairs) => Some(CefLine(fields, pairs))
  }

  lemma PartsPrint(attrs: seq<Attr>, sep: char, chain: Chain)
    requires Orderly(chain)
    ensures Join(Parts(attrs, chain), [sep]) == PrintAttrs(attrs, sep, chain)
  {
    var parts := Parts(attrs, chain);
    forall i | 0 <= i < |parts| ensures parts[i] == Assign(attrs[i], chain) {
      ChainIsPerCharacter(attrs[i].value, chain);
    }
    JoinAssigns(parts, attrs, sep, chain);
  }

  lemma HeaderPrints(fields: seq<string>, header: Chain)
    requires Orderly(header) && fields != []
    ensures Join(ReplacedFields(fields, header), "|") + "|" == PrintFields(fields, '|', header)
  {
    var parts := ReplacedFields(fields, header);
    forall i | 0 <= i < |parts| ensures parts[i] == Escape(fields[i], header) {
      ChainIsPerCharacter(fields[i], header);
    }
    JoinFields(parts, fields, '|', header);
  }

  lemma CefLineRoundTrip(fields: seq<string>, attrs: seq<Attr>, header: Chain, extension: Chain)
    requires Protects(header, '|') && Protects(extension, '=') && PlainAttrs(attrs) && fields != [] && attrs != []
    ensures ParseCef(CefText(fields, attrs, header, extension), |fields|, header, extension)
            == Some(CefLine(fields, PairsOf(attrs)))
       <==> AllLegible(attrs, extension)
  {
    HeaderPrints(fields, header);
    PartsPrint(attrs, ' ', extension);
    FieldsRoundTrip(fields, PrintAttrs(attrs, ' ', extension), '|', header);
    ExtensionsRoundTrip(attrs, extension);
  }

  /** A CEF line is always read as its header and some extensions. */
  lemma CefParses(fields: seq<string>, attrs: seq<Attr>)
    requires PlainAttrs(attrs) && fields != [] && attrs != []
    ensures ParseCef(CefText(fields, attrs, CEF_HEADER, CEF_EXTENSION), |fields|, CEF_HEADER, CEF_EXTENSION)
            == Some(CefLine(fields, ParseValues(attrs[0].key, Text(attrs[0], CEF_EXTENSION)
                                                              + AfterFirst(attrs, ' ', CEF_EXTENSION), CEF_EXTENSION)))
  {
    ChainsProtect();
    CefLineParses(fields, attrs, CEF_HEADER, CEF_EXTENSION);
  }

  lemma CefLineParses(fields: seq<string>, attrs: seq<Attr>, header: Chain, extension: Chain)
    requires Protects(header, '|') && Orderly(extension) && PlainAttrs(attrs) && fields != [] && attrs != []
    ensures ParseCef(CefText(fields, attrs, header, extension), |fields|, header, extension)
            == Some(CefLine(fields, ParseValues(attrs[0].key, Text(attrs[0], extension)
                                                              + AfterFirst(attrs, ' ', extension), extension)))
  {
    HeaderPrints(fields, header);
    PartsPrint(attrs, ' ', extension);
    FieldsRoundTrip(fields, PrintAttrs(attrs, ' ', extension), '|', header);
    PrintAttrsHead(attrs, ' ', extension);
    SplitAtPlain(attrs[0].key, '=', Text(attrs[0], extension) + AfterFirst(attrs, ' ', extension));
  }

  /** A CEF line is read back as the header fields and extensions that were printed, exactly when the
      raw values are legible. */
  lemma CefIsUnambiguous(fields: seq<string>, attrs: seq<Attr>)
    requires PlainAttrs(attrs) && fields != [] && attrs != []
    ensures ParseCef(CefText(fields, attrs, CEF_HEADER, CEF_EXTENSION), |fields|, CEF_HEADER, CEF_EXTENSION)
            == Some(CefLine(fields, PairsOf(attrs)))
       <==> AllLegible(attrs, CEF_EXTENSION)
  {
    ChainsProtect();
    CefLineRoundTrip(fields, attrs, CEF_HEADER, CEF_EXTENSION);
  }

  /** The tab-separated attributes of a LEEF line are read back as they were printed, exactly when
      the raw values are legible. */
  lemma LeefIsUnambiguous(attrs: seq<Attr>)
    requires PlainAttrs(attrs) && attrs != []
    ensures ParseAttributes(Join(Parts(attrs, LEEF_VALUE), "\t"), LEEF_VALUE) == Some(PairsOf(attrs))
       <==> AllLegibleFields(attrs, false, LEEF_VALUE)
  {
    ChainsProtect();
    PartsPrint(attrs, '\t', LEEF_VALUE);
    AttributesRoundTrip(attrs, LEEF_VALUE);
  }

  /** `key="escaped"` for every field that has a value. */
  function ReplacedParams(pairs: seq<Pair>, chain: Chain): seq<string> {
    seq(|pairs|, i requires 0 <= i < |pairs| => Param(pairs[i].key, ReplaceAll(pairs[i].value, chain)))
  }

  /** The element after its SD-ID: the parameters behind a space if there are any, then the bracket. */
  function SdTail(pairs: seq<Pair>, chain: Chain): string {
    var params := Join(ReplacedParams(pairs, chain), " ");
    (if params != "" then " " + params else "") + "]"
  }

  lemma Enclose(head: string, rest: string)
    ensures " " + (head + " " + rest) + "]" == " " + (head + (" " + rest + "]"))
  {
  }

  lemma {:induction false} ParamsJoin(pairs: seq<Pair>, chain: Chain)
    requires Orderly(chain) && pairs != []
    ensures Join(ReplacedParams(pairs, chain), " ") != ""
    ensures " " + Join(ReplacedParams(pairs, chain), " ") + "]" == PrintParams(pairs, chain)
  {
    ChainIsPerCharacter(pairs[0].value, chain);
    var parts := ReplacedParams(pairs, chain);
    var head := Param(pairs[0].key, Escape(pairs[0].value, chain));
    assert parts[0] == head;
    if |pairs| == 1 {
      assert PrintParams(pairs[1..], chain) == "]";
      assert " " + head + "]" == " " + (head + "]");
    } else {
      ParamsJoin(pairs[1..], chain);
      var tail := ReplacedParams(pairs[1..], chain);
      assert parts[1..] == tail;
      var rest := Join(tail, " ");
      Enclose(head, rest);
    }
  }

  /** A structured-data element is read back as its parameters, and ends where it was closed. */
  lemma StructuredDataIsUnambiguous(pairs: seq<Pair>, message: string)
    requires PlainKeys(pairs)
    ensures ParseParams(SdTail(pairs, SD_VALUE) + message, SD_VALUE) == Some((pairs, message))
  {
    ChainsProtect();
    if pairs != [] { ParamsJoin(pairs, SD_VALUE); }
    ParamsRoundTrip(pairs, message, SD_VALUE);
  }
}
