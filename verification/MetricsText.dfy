/**
 The Prometheus text printer and the snapshot worker's line parser. The parser looks for the first
 `mcp_server="` in a line and takes the text up to the next quote; this is shown to be the label the
 printer wrote, or shown exactly when it is not.
 */
module MetricsText {
  import opened Strings
  import opened Options
  import opened Escaping
  import opened TextLines

  // ---------------------------------------------------------------- text functions of the parser

  /** `s.split(sep)[0]`. */
  function UpTo(s: string, sep: string): string {
    match Cut(s, sep)
    case None => s
    case Some((before, _)) => before
  }

  /** `line.split(needle)[1].split('"')[0]`, where the needle is the word `mcp_server=` and a quote;
      no result for a line without the needle. */
  function ServerOf(line: string, word: string): Option<string> {
    match Behind(line, word)
    case None => None
    case Some(after) => Some(UpTo(UpTo(after, word + ['"']), ['"']))
  }

  /** The text behind the first needle. */
  function Behind(line: string, word: string): Option<string> {
    match Cut(line, word + ['"'])
    case None => None
    case Some((_, after)) => Some(after)
  }

  predicate EndsWith(s: string, w: string) {
    |w| <= |s| && s[|s| - |w|..] == w
  }

  predicate NoQuote(s: string) {
    forall i | 0 <= i < |s| :: s[i] != '"'
  }

  lemma EndsWithTail(seg: string, word: string)
    requires seg != [] && word != []
    ensures EndsWith(seg, word) <==> EndsWith(seg[1..], word) || seg == word
  {
    if |word| < |seg| {
      assert seg[|seg| - |word|..] == seg[1..][|seg| - 1 - |word|..];
    }
  }

  /** An occurrence at the very start is the word itself up to the first quote. */
  lemma NeedleAtStart(seg: string, rest: string, word: string)
    requires NoQuote(seg) && NoQuote(word) && word != []
    ensures
      var s := seg + (['"'] + rest);
      (|s| >= |word| + 1 && s[..|word| + 1] == word + ['"']) <==> seg == word
  {
    var s := seg + (['"'] + rest);
    if |s| >= |word| + 1 && s[..|word| + 1] == word + ['"'] {
      assert s[|word|] == s[..|word| + 1][|word|] == '"';
      assert forall i | 0 <= i < |word| :: s[i] == s[..|word| + 1][i] == word[i];
      assert s[|seg|] == '"';
      assert |seg| == |word|;
      assert seg == word;
    }
    if seg == word {
      assert s[..|word| + 1] == word + ['"'];
    }
  }

  /** The needle ends in the only quote it contains, so it can only end at a quote that is preceded
      by the word: the text up to the first quote decides alone. */
  lemma {:induction false} CutAtFirstQuote(seg: string, rest: string, word: string)
    requires NoQuote(seg) && NoQuote(word) && word != []
    ensures Cut(seg + (['"'] + rest), word + ['"']) ==
            if EndsWith(seg, word) then Some((seg[..|seg| - |word|], rest))
            else Prepend(seg + ['"'], Cut(rest, word + ['"']))
  {
    var s := seg + (['"'] + rest);
    NeedleAtStart(seg, rest, word);
    if seg == word {
      assert s[|word| + 1..] == rest;
    } else if seg == [] {
      assert s[1..] == rest && seg + ['"'] == [s[0]];
    } else {
      CutAtFirstQuote(seg[1..], rest, word);
      assert s[1..] == seg[1..] + (['"'] + rest);
      EndsWithTail(seg, word);
      if EndsWith(seg, word) {
        assert [seg[0]] + seg[1..][..|seg| - 1 - |word|] == seg[..|seg| - |word|];
      } else if Cut(rest, word + ['"']).Some? {
        var before := Cut(rest, word + ['"']).value.0;
        assert [seg[0]] + (seg[1..] + ['"'] + before) == seg + ['"'] + before;
      }
    }
  }

  lemma {:induction false} UpToQuote(seg: string, rest: string)
    requires NoQuote(seg)
    ensures UpTo(seg + (['"'] + rest), ['"']) == seg
  {
    var s := seg + (['"'] + rest);
    assert s[..1][0] == s[0];
    if seg != [] {
      assert s[1..] == seg[1..] + (['"'] + rest);
      UpToQuote(seg[1..], rest);
    }
  }

  lemma {:induction false} UpToQuoteAbsent(seg: string)
    requires NoQuote(seg)
    ensures UpTo(seg, ['"']) == seg
  {
    if seg != [] {
      UpToQuoteAbsent(seg[1..]);
      assert seg[..1][0] == seg[0];
    }
  }

  /** What the parser reads from the text behind the needle, when a quote follows `seg`. */
  lemma ReadBehindNeedle(seg: string, rest: string, word: string)
    requires NoQuote(seg) && NoQuote(word) && word != []
    ensures UpTo(UpTo(seg + (['"'] + rest), word + ['"']), ['"']) ==
            if EndsWith(seg, word) then seg[..|seg| - |word|] else seg
  {
    CutAtFirstQuote(seg, rest, word);
    if EndsWith(seg, word) {
      UpToQuoteAbsent(seg[..|seg| - |word|]);
    } else {
      var inner := Cut(rest, word + ['"']);
      if inner.Some? {
        assert seg + ['"'] + inner.value.0 == seg + (['"'] + inner.value.0);
        UpToQuote(seg, inner.value.0);
      } else {
        UpToQuote(seg, rest);
      }
    }
  }

  // ---------------------------------------------------------------- escaped values inside a line

  /** The word has nothing to do with the escaping: it holds no special character and no code. */
  predicate Foreign(word: string, chain: Chain) {
    && word != []
    && forall i, j | 0 <= i < |word| && 0 <= j < |chain| :: word[i] != chain[j].special && word[i] != chain[j].code
  }

  predicate LabelChain(word: string, chain: Chain) {
    && Orderly(chain) && Foreign(word, chain) && CodeOf('"', chain) == Some('"') && NoQuote(word)
    && word[0] != ',' && word[|word| - 1] == '='
  }

  lemma {:induction false} CodesComeFromTheChain(c: char, chain: Chain)
    ensures CodeOf(c, chain).Some? ==>
              exists j | 0 <= j < |chain| :: chain[j].special == c && chain[j].code == CodeOf(c, chain).value
  {
    if chain != [] && chain[0].special != c && CodeOf(c, chain).Some? {
      CodesComeFromTheChain(c, chain[1..]);
      var j :| 0 <= j < |chain[1..]| && chain[1..][j].special == c && chain[1..][j].code == CodeOf(c, chain).value;
      assert chain[j + 1] == chain[1..][j];
    }
  }

  lemma {:induction false} EscapeSnoc(v: string, c: char, chain: Chain)
    ensures Escape(v + [c], chain) == Escape(v, chain) + EscapeChar(c, chain)
  {
    if v == [] {
      assert v + [c] == [c] && [c][1..] == [];
    } else {
      assert (v + [c])[1..] == v[1..] + [c];
      EscapeSnoc(v[1..], c, chain);
    }
  }

  /** Escaping neither creates nor destroys the word at the end of a value. */
  lemma {:induction false} EscapingKeepsEnding(v: string, word: string, chain: Chain)
    requires word == [] || Foreign(word, chain)
    ensures EndsWith(Escape(v, chain), word) <==> EndsWith(v, word)
    decreases |word|
  {
    if word != [] {
      var w, d := word[..|word| - 1], word[|word| - 1];
      if v != [] {
        var u, c := v[..|v| - 1], v[|v| - 1];
        assert v == u + [c];
        EscapeSnoc(u, c, chain);
        CodesComeFromTheChain(c, chain);
        EscapingKeepsEnding(u, w, chain);
        var e := EscapeChar(c, chain);
        EndsWithSnoc(u, c, word);
        if CodeOf(c, chain).None? {
          EndsWithSnoc(Escape(u, chain), c, word);
        } else {
          assert Escape(v, chain) == (Escape(u, chain) + ['\\']) + [e[1]];
          EndsWithSnoc(Escape(u, chain) + ['\\'], e[1], word);
        }
      }
    }
  }

  lemma EndsWithSnoc(s: string, c: char, word: string)
    requires word != []
    ensures EndsWith(s + [c], word) <==> c == word[|word| - 1] && EndsWith(s, word[..|word| - 1])
  {
    var m := |word| - 1;
    if m <= |s| {
      assert (s + [c])[|s| - m..] == s[|s| - m..] + [c];
      assert word == word[..m] + [word[m]];
      EqualEnds(s[|s| - m..], c, word[..m], word[m]);
    }
  }

  lemma EqualEnds(a: string, x: char, b: string, y: char)
    requires |a| == |b|
    ensures a + [x] == b + [y] <==> a == b && x == y
  {
    if a + [x] == b + [y] {
      assert a == (a + [x])[..|a|] == (b + [y])[..|b|] == b;
      assert x == (a + [x])[|a|] == (b + [y])[|b|] == y;
    }
  }

  /** A quoted value holds the needle only if it ends with the word: its own quotes are protected. */
  lemma {:induction false} CutOverValue(v: string, rest: string, word: string, chain: Chain)
    requires LabelChain(word, chain)
    ensures Behind(Escape(v, chain) + (['"'] + rest), word) ==
            if EndsWith(v, word) then Some(rest) else Behind(rest, word)
    decreases |v|
  {
    var q := FirstQuote(v);
    if q == |v| {
      EscapedNoQuote(v, chain);
      CutAtFirstQuote(Escape(v, chain), rest, word);
      EscapingKeepsEnding(v, word, chain);
    } else {
      var a, b := v[..q], v[q + 1..];
      assert v == a + ['"'] + b;
      var seg, e := Escape(a, chain) + ['\\'], Escape(b, chain);
      EscapeAroundQuote(a, b, chain);
      Regroup(seg, ['"'] + e, ['"'] + rest);
      Regroup(['"'], e, ['"'] + rest);
      EscapedNoQuote(a, chain);
      CutAtFirstQuote(seg, e + (['"'] + rest), word);
      EndsWithSnoc(Escape(a, chain), '\\', word);
      CutOverValue(b, rest, word, chain);
      EndsWithAfterQuote(a, b, word);
    }
  }

  lemma EscapeAroundQuote(a: string, b: string, chain: Chain)
    requires CodeOf('"', chain) == Some('"')
    ensures Escape(a + ['"'] + b, chain) == (Escape(a, chain) + ['\\']) + (['"'] + Escape(b, chain))
  {
    EscapeConcat(a + ['"'], b, chain);
    EscapeSnoc(a, '"', chain);
  }

  function FirstQuote(v: string): (q: nat)
    ensures q <= |v| && NoQuote(v[..q]) && (q < |v| ==> v[q] == '"')
  {
    if v == [] || v[0] == '"' then 0 else 1 + FirstQuote(v[1..])
  }

  lemma {:induction false} EscapedNoQuote(v: string, chain: Chain)
    requires Orderly(chain) && CodeOf('"', chain) == Some('"') && NoQuote(v)
    ensures NoQuote(Escape(v, chain))
  {
    if v != [] {
      EscapedNoQuote(v[1..], chain);
      if CodeOf(v[0], chain).Some? {
        CodesInvert(v[0], chain);
        CodesInvert('"', chain);
      }
    }
  }

  lemma {:induction false} EscapeConcat(a: string, b: string, chain: Chain)
    ensures Escape(a + b, chain) == Escape(a, chain) + Escape(b, chain)
  {
    if a == [] {
      assert a + b == b;
    } else {
      assert (a + b)[1..] == a[1..] + b;
      EscapeConcat(a[1..], b, chain);
    }
  }

  lemma EndsWithAfterQuote(a: string, b: string, word: string)
    requires NoQuote(word)
    ensures EndsWith(a + ['"'] + b, word) <==> EndsWith(b, word)
  {
    var v := a + ['"'] + b;
    if |word| <= |b| {
      assert v[|v| - |word|..] == b[|b| - |word|..];
    } else if |word| <= |v| {
      assert v[|a|] == '"';
      assert v[|v| - |word|..][|a| - (|v| - |word|)] == '"';
    }
  }

  // ---------------------------------------------------------------- a printed sample line

  datatype Label = Label(key: string, value: string)

  /** `",".join(f'{k}="{escaped}"')`. */
  function PrintLabels(labels: seq<Label>, chain: Chain): string
    decreases |labels|, 0
  {
    if labels == [] then []
    else
      labels[0].key + ['='] + (['"'] + (ReplaceAll(labels[0].value, chain) + (['"'] + MoreLabels(labels[1..], chain))))
  }

  function MoreLabels(labels: seq<Label>, chain: Chain): string
    decreases |labels|, 1
  {
    if labels == [] then [] else [','] + PrintLabels(labels, chain)
  }

  /** A counter sample: its labels in sorted order around `mcp_server`, and its printed value. */
  datatype Sample = Sample(name: string, before: seq<Label>, server: string, after: seq<Label>, value: real)

  function LabelsOf(s: Sample, key: string): seq<Label> {
    s.before + [Label(key, s.server)] + s.after
  }

  /** `f"{name}{labels} {value}"`. */
  function PrintSample(s: Sample, key: string, chain: Chain, show: real -> string): string {
    s.name + "{" + PrintLabels(LabelsOf(s, key), chain) + ("} " + show(s.value))
  }

  /** Some label printed before the server's ends with the word, and so does its text in the line. */
  predicate Misleading(labels: seq<Label>, word: string) {
    exists i | 0 <= i < |labels| :: EndsWith(labels[i].value, word)
  }

  predicate PlainKeys(labels: seq<Label>, key: string) {
    forall i | 0 <= i < |labels| :: NoQuote(labels[i].key) && !EndsWith(labels[i].key, key)
  }

  lemma PrintLabelsHead(lead: string, labels: seq<Label>, tail: string, chain: Chain)
    requires labels != [] && Orderly(chain)
    ensures lead + PrintLabels(labels, chain) + tail ==
            (lead + labels[0].key + ['=']) +
            (['"'] + (Escape(labels[0].value, chain) + (['"'] + (MoreLabels(labels[1..], chain) + tail))))
  {
    var e, more := Escape(labels[0].value, chain), MoreLabels(labels[1..], chain);
    ChainIsPerCharacter(labels[0].value, chain);
    assert PrintLabels(labels, chain) == labels[0].key + ['='] + (['"'] + (e + (['"'] + more)));
    MoveTail(lead, labels[0].key, e, more, tail);
  }

  lemma MoveTail(lead: string, key: string, e: string, more: string, tail: string)
    ensures lead + (key + ['='] + (['"'] + (e + (['"'] + more)))) + tail
            == (lead + key + ['=']) + (['"'] + (e + (['"'] + (more + tail))))
  {
    Regroup(['"'], more, tail);
    Regroup(e, ['"'] + more, tail);
    Regroup(['"'], e + (['"'] + more), tail);
    Regroup(lead + key + ['='], ['"'] + (e + (['"'] + more)), tail);
    Regroup(lead, key + ['='], ['"'] + (e + (['"'] + more)));
    Regroup(lead, key, ['=']);
  }

  predicate OpensLabels(lead: string, key: string) {
    NoQuote(lead) && lead != [] && lead[|lead| - 1] !in key
  }

  /** The parser moves on to the next label unless this one's value ends with the word. */
  lemma SkipLabel(lead: string, labels: seq<Label>, tail: string, key: string, chain: Chain)
    requires LabelChain(key + ['='], chain) && OpensLabels(lead, key)
    requires labels != [] && NoQuote(labels[0].key) && !EndsWith(labels[0].key, key)
    ensures
      var rest := MoreLabels(labels[1..], chain) + tail;
      Behind(lead + PrintLabels(labels, chain) + tail, key + ['=']) ==
      if EndsWith(labels[0].value, key + ['=']) then Some(rest) else Behind(rest, key + ['='])
  {
    var rest := MoreLabels(labels[1..], chain) + tail;
    PrintLabelsHead(lead, labels, tail, chain);
    KeyEnding(lead, labels[0].key, key);
    CutAtFirstQuote(lead + labels[0].key + ['='], Escape(labels[0].value, chain) + (['"'] + rest), key + ['=']);
    CutOverValue(labels[0].value, rest, key + ['='], chain);
  }

  /** At the server's own label the parser stops and reads its value. */
  lemma ReadServerLabel(lead: string, labels: seq<Label>, tail: string, key: string, chain: Chain)
    requires LabelChain(key + ['='], chain) && OpensLabels(lead, key) && NoQuote(key)
    requires labels != [] && labels[0].key == key && Escape(labels[0].value, chain) == labels[0].value
    requires NoQuote(labels[0].value)
    ensures
      var read := ServerOf(lead + PrintLabels(labels, chain) + tail, key + ['=']);
      var server := labels[0].value;
      read == Some(if EndsWith(server, key + ['=']) then server[..|server| - |key| - 1] else server)
  {
    var rest := MoreLabels(labels[1..], chain) + tail;
    PrintLabelsHead(lead, labels, tail, chain);
    KeyEnding(lead, key, key);
    CutAtFirstQuote(lead + key + ['='], labels[0].value + (['"'] + rest), key + ['=']);
    ReadBehindNeedle(labels[0].value, rest, key + ['=']);
  }

  /** What the parser takes for the server after a label before the server's that ends with the word:
      it is behind that label's quote and reads on to the next one. */
  function FalseText(before: seq<Label>, key: string): string
    requires Misleading(before, key + ['='])
    decreases |before|
  {
    if EndsWith(before[0].value, key + ['=']) then
      if |before| == 1 then [','] else [','] + before[1].key + ['=']
    else
      MisleadingSplits(before, key + ['=']);
      FalseText(before[1..], key)
  }

  /** The parser finds the server the printer wrote exactly when neither the server's name nor a label
      value printed before it ends with the word; or, by accident, when the text between a misleading
      label and the next quote is the name. */
  predicate ReadRight(s: Sample, key: string) {
    if Misleading(s.before, key + ['=']) then s.server == FalseText(s.before, key)
    else !EndsWith(s.server, key + ['='])
  }

  lemma {:induction false} ReadLabels(lead: string, s: Sample, tail: string, key: string, chain: Chain)
    requires PlainEscapes(chain) && LabelChain(key + ['='], chain) && OpensLabels(lead, key)
    requires ',' !in key && NoQuote(key) && PlainKeys(s.before, key) && PlainServer(s.server)
    ensures
      var read := ServerOf(lead + PrintLabels(LabelsOf(s, key), chain) + tail, key + ['=']);
      read.Some? && (read == Some(s.server) <==> ReadRight(s, key))
    decreases |s.before|
  {
    var labels := LabelsOf(s, key);
    if s.before == [] {
      assert labels[0] == Label(key, s.server);
      PlainServersPrintAsTheyAre(s.server, chain);
      ReadServerLabel(lead, labels, tail, key, chain);
    } else {
      var s' := s.(before := s.before[1..]);
      assert labels[0] == s.before[0] && labels[1..] == LabelsOf(s', key);
      SkipLabel(lead, labels, tail, key, chain);
      MisleadingSplits(s.before, key + ['=']);
      if EndsWith(labels[0].value, key + ['=']) {
        assert labels[1].key == if |s.before| == 1 then key else s.before[1].key;
        ReadAfterFalseNeedle(labels[1..], tail, key, chain);
      } else {
        ReadLabels([','], s', tail, key, chain);
      }
    }
  }

  /** Ids that do not start with a comma are not found by accident. */
  lemma {:induction false} FalseTextStartsWithAComma(before: seq<Label>, key: string)
    requires Misleading(before, key + ['='])
    ensures FalseText(before, key) != [] && FalseText(before, key)[0] == ','
    decreases |before|
  {
    if !EndsWith(before[0].value, key + ['=']) {
      MisleadingSplits(before, key + ['=']);
      FalseTextStartsWithAComma(before[1..], key);
    }
  }

  lemma MisleadingSplits(labels: seq<Label>, word: string)
    requires labels != []
    ensures Misleading(labels, word) <==> EndsWith(labels[0].value, word) || Misleading(labels[1..], word)
  {
    if i :| 0 <= i < |labels| && EndsWith(labels[i].value, word) {
      assert i == 0 || labels[1..][i - 1] == labels[i];
    }
  }

  predicate PlainEscapes(chain: Chain) {
    forall i | 0 <= i < |chain| :: chain[i].special == '"' || chain[i].special == '\\' || chain[i].special == '\n'
  }

  /** A server id that the printer leaves alone. */
  predicate PlainServer(server: string) {
    forall i | 0 <= i < |server| :: server[i] != '"' && server[i] != '\\' && server[i] != '\n'
  }

  lemma PlainServersPrintAsTheyAre(server: string, chain: Chain)
    requires PlainServer(server) && PlainEscapes(chain)
    ensures Escape(server, chain) == server && NoQuote(server)
  {
    forall i | 0 <= i < |server| ensures !IsSpecial(server[i], chain) {
      CodesComeFromTheChain(server[i], chain);
    }
    EscapePlain(server, chain);
  }

  lemma KeyEnding(lead: string, k: string, key: string)
    requires lead != [] && lead[|lead| - 1] !in key
    ensures EndsWith(lead + k + ['='], key + ['=']) <==> EndsWith(k, key)
  {
    EndsWithSnoc(lead + k, '=', key + ['=']);
    assert (key + ['='])[..|key|] == key;
    var t := lead + k;
    if |key| <= |k| {
      assert t[|t| - |key|..] == k[|k| - |key|..];
    } else if |key| <= |t| {
      assert t[|t| - |key|..][|lead| - 1 - (|t| - |key|)] == lead[|lead| - 1];
    }
  }

  /** Behind a false needle the parser reads a comma and the next key, or the comma alone if that key is
      the server's. */
  lemma ReadBetweenLabels(k: string, rest: string, key: string)
    requires NoQuote(k) && NoQuote(key) && ',' !in key && (k == key || !EndsWith(k, key))
    ensures UpTo(UpTo([','] + k + ['='] + (['"'] + rest), key + ['='] + ['"']), ['"'])
            == if k == key then [','] else [','] + k + ['=']
  {
    var seg, word := [','] + k + ['='], key + ['='];
    ReadBehindNeedle(seg, rest, word);
    KeyEnding([','], k, key);
    if k == key {
      assert EndsWith(key, key);
      assert seg == [','] + word && seg[..1] == [','];
    }
  }

  lemma ReadAfterFalseNeedle(labels: seq<Label>, tail: string, key: string, chain: Chain)
    requires labels != [] && NoQuote(labels[0].key) && NoQuote(key) && ',' !in key
    requires labels[0].key == key || !EndsWith(labels[0].key, key)
    ensures UpTo(UpTo([','] + PrintLabels(labels, chain) + tail, key + ['='] + ['"']), ['"'])
            == if labels[0].key == key then [','] else [','] + labels[0].key + ['=']
  {
    var rest := ReplaceAll(labels[0].value, chain) + (['"'] + MoreLabels(labels[1..], chain)) + tail;
    assert [','] + PrintLabels(labels, chain) + tail == [','] + labels[0].key + ['='] + (['"'] + rest);
    ReadBetweenLabels(labels[0].key, rest, key);
  }

  // ---------------------------------------------------------------- one line's contribution

  function TrailingToken(s: string): string {
    if s == [] || IsSpace(s[|s| - 1]) then [] else TrailingToken(s[..|s| - 1]) + [s[|s| - 1]]
  }

  /** `s.split()[-1]`. */
  function LastToken(s: string): string {
    if s == [] then []
    else if IsSpace(s[|s| - 1]) then LastToken(s[..|s| - 1])
    else TrailingToken(s)
  }

  lemma {:induction false} TrailingTokenStops(a: string, t: string)
    requires NoSpace(t)
    ensures TrailingToken(a + [' '] + t) == t
  {
    var s := a + [' '] + t;
    if t != [] {
      assert s[..|s| - 1] == a + [' '] + t[..|t| - 1];
      TrailingTokenStops(a, t[..|t| - 1]);
    }
  }

  /** How numbers are printed and read back. */
  datatype Numerals = Numerals(show: real -> string, read: string -> Option<real>)

  /** A value that prints as one token and reads back as itself, as every float does. */
  predicate Faithful(nums: Numerals, v: real) {
    && nums.show(v) != [] && NoSpace(nums.show(v)) && NoBreak(nums.show(v))
    && nums.read(nums.show(v)) == Some(v)
  }

  /** The server and value a line counts for; comments, lines without the needle, unreadable
      values and empty names count for nothing. */
  function ParseLine(line: string, key: string, nums: Numerals): Option<(string, real)> {
    if StartsWith(line, "#") then None
    else
      match (ServerOf(line, key + ['=']), nums.read(LastToken(line)))
      case (Some(server), Some(value)) => if server == [] then None else Some((server, value))
      case _ => None
  }

  /** The first of the worker's metrics whose name opens the line. */
  function MetricOf(line: string, metrics: seq<string>): Option<string> {
    if metrics == [] then None
    else if StartsWith(line, metrics[0] + "{") then Some(metrics[0])
    else MetricOf(line, metrics[1..])
  }

  predicate PlainName(name: string) {
    name != [] && name[0] != '#' && '{' !in name && NoQuote(name) && NoBreak(name)
  }

  lemma OpensWith(name: string, rest: string, metric: string)
    requires '{' !in name && '{' !in metric
    ensures StartsWith(name + "{" + rest, metric + "{") <==> name == metric
  {
    var s := name + "{" + rest;
    assert s[|name|] == '{';
    if StartsWith(s, metric + "{") {
      assert s[|metric|] == s[..|metric| + 1][|metric|] == '{';
      assert forall i | 0 <= i < |metric| :: s[i] == s[..|metric| + 1][i] == metric[i];
      assert |name| == |metric|;
      assert name == metric;
    }
    if name == metric {
      assert s[..|metric| + 1] == metric + "{";
    }
  }

  lemma {:induction false} MetricOfSample(name: string, rest: string, metrics: seq<string>)
    requires '{' !in name && forall i | 0 <= i < |metrics| :: '{' !in metrics[i]
    ensures MetricOf(name + "{" + rest, metrics) == if name in metrics then Some(name) else None
  {
    if metrics != [] {
      OpensWith(name, rest, metrics[0]);
      MetricOfSample(name, rest, metrics[1..]);
    }
  }

  /** A sample the parser reads correctly. */
  predicate Readable(s: Sample, key: string) {
    && PlainName(s.name) && PlainKeys(s.before, key) && PlainServer(s.server) && s.server != []
    && ReadRight(s, key)
  }

  predicate PrinterSetting(key: string, chain: Chain) {
    && PlainEscapes(chain) && LabelChain(key + ['='], chain)
    && ',' !in key && '{' !in key && NoQuote(key)
  }

  lemma LastTokenIsValue(a: string, t: string)
    requires NoSpace(t) && t != []
    ensures LastToken(a + ("} " + t)) == t
  {
    var line := a + ("} " + t);
    assert line == (a + "}") + [' '] + t;
    TrailingTokenStops(a + "}", t);
    assert line[|line| - 1] == t[|t| - 1];
  }

  lemma SampleMetric(s: Sample, key: string, chain: Chain, nums: Numerals, metrics: seq<string>)
    requires PlainName(s.name) && forall i | 0 <= i < |metrics| :: '{' !in metrics[i]
    ensures
      var line := PrintSample(s, key, chain, nums.show);
      MetricOf(line, metrics) == (if s.name in metrics then Some(s.name) else None) && !StartsWith(line, "#")
  {
    var labels, value := PrintLabels(LabelsOf(s, key), chain), "} " + nums.show(s.value);
    var rest := labels + value;
    var line := PrintSample(s, key, chain, nums.show);
    Regroup(s.name + "{", labels, value);
    MetricOfSample(s.name, rest, metrics);
    assert line[..1][0] == s.name[0];
  }

  /** A readable sample counts for its own server and metric, with its own value. */
  lemma SampleCounts(s: Sample, key: string, chain: Chain, nums: Numerals, metrics: seq<string>)
    requires PrinterSetting(key, chain) && Readable(s, key) && Faithful(nums, s.value)
    requires forall i | 0 <= i < |metrics| :: '{' !in metrics[i]
    ensures ParseLine(PrintSample(s, key, chain, nums.show), key, nums) == Some((s.server, s.value))
    ensures MetricOf(PrintSample(s, key, chain, nums.show), metrics) == if s.name in metrics then Some(s.name) else None
  {
    SampleMetric(s, key, chain, nums, metrics);
    ReadLabels(s.name + "{", s, "} " + nums.show(s.value), key, chain);
    LastTokenIsValue(s.name + "{" + PrintLabels(LabelsOf(s, key), chain), nums.show(s.value));
  }

  // ---------------------------------------------------------------- the snapshot

  function Contribution(line: string, metrics: seq<string>, metric: string, server: string, key: string, nums: Numerals): real {
    match ParseLine(line, key, nums)
    case Some((who, value)) => if who == server && MetricOf(line, metrics) == Some(metric) then value else 0.0
    case None => 0.0
  }

  /** What the lines add up to for one server and metric. */
  function SumFor(lines: seq<string>, metrics: seq<string>, metric: string, server: string, key: string, nums: Numerals): real {
    if lines == [] then 0.0
    else
      var n := |lines| - 1;
      SumFor(lines[..n], metrics, metric, server, key, nums) + Contribution(lines[n], metrics, metric, server, key, nums)
  }

  predicate Mentions(line: string, server: string, key: string, nums: Numerals) {
    var parsed := ParseLine(line, key, nums);
    parsed.Some? && parsed.value.0 == server
  }

  ghost predicate Mentioned(lines: seq<string>, server: string, key: string, nums: Numerals) {
    exists i | 0 <= i < |lines| :: Mentions(lines[i], server, key, nums)
  }

  type Totals = map<string, map<string, real>>

  /** The totals of one server after some lines. */
  ghost predicate EntryInv(totals: Totals, lines: seq<string>, metrics: seq<string>, server: string, key: string, nums: Numerals) {
    if server in totals then
      && Mentioned(lines, server, key, nums)
      && forall metric | metric in metrics ::
           metric in totals[server] && totals[server][metric] == SumFor(lines, metrics, metric, server, key, nums)
    else
      && !Mentioned(lines, server, key, nums)
      && forall metric :: SumFor(lines, metrics, metric, server, key, nums) == 0.0
  }

  lemma {:induction false} MetricsAreListed(line: string, metrics: seq<string>)
    ensures MetricOf(line, metrics).Some? ==> MetricOf(line, metrics).value in metrics
  {
    if metrics != [] {
      MetricsAreListed(line, metrics[1..]);
    }
  }

  lemma Snoc(lines: seq<string>, line: string, metrics: seq<string>, server: string, key: string, nums: Numerals)
    ensures Mentioned(lines + [line], server, key, nums) <==>
            Mentioned(lines, server, key, nums) || Mentions(line, server, key, nums)
    ensures forall metric :: SumFor(lines + [line], metrics, metric, server, key, nums) ==
              SumFor(lines, metrics, metric, server, key, nums) + Contribution(line, metrics, metric, server, key, nums)
  {
    var all := lines + [line];
    assert all[..|lines|] == lines && all[|lines|] == line;
    if i :| 0 <= i < |lines| && Mentions(lines[i], server, key, nums) {
      assert all[i] == lines[i];
    }
  }

  /** A line about another server leaves a server's entry right. */
  lemma OthersKeepTheirEntry(totals: Totals, totals': Totals, lines: seq<string>, line: string, metrics: seq<string>,
                             server: string, key: string, nums: Numerals)
    requires EntryInv(totals, lines, metrics, server, key, nums) && !Mentions(line, server, key, nums)
    requires server in totals <==> server in totals'
    requires server in totals ==> totals'[server] == totals[server]
    ensures EntryInv(totals', lines + [line], metrics, server, key, nums)
  {
    Snoc(lines, line, metrics, server, key, nums);
  }

  /** `per_mcp_server.setdefault(...)`. */
  function EntryOf(totals: Totals, server: string, metrics: seq<string>): map<string, real> {
    if server in totals then totals[server] else map metric | metric in metrics :: 0.0
  }

  lemma MentionedEntry(totals: Totals, totals': Totals, lines: seq<string>, line: string, metrics: seq<string>,
                       server: string, value: real, key: string, nums: Numerals)
    requires EntryInv(totals, lines, metrics, server, key, nums)
    requires ParseLine(line, key, nums) == Some((server, value)) && server in totals'
    requires forall metric | metric in metrics ::
               && metric in totals'[server] && metric in EntryOf(totals, server, metrics)
               && totals'[server][metric]
                  == EntryOf(totals, server, metrics)[metric]
                     + if MetricOf(line, metrics) == Some(metric) then value else 0.0
    ensures EntryInv(totals', lines + [line], metrics, server, key, nums)
  {
    Snoc(lines, line, metrics, server, key, nums);
    assert Mentions(line, server, key, nums);
  }

  /** The body of the snapshot loop. */
  method Credit(totals: Totals, line: string, metrics: seq<string>, key: string, nums: Numerals, ghost lines: seq<string>)
    returns (totals': Totals)
    requires forall server :: EntryInv(totals, lines, metrics, server, key, nums)
    ensures forall server :: EntryInv(totals', lines + [line], metrics, server, key, nums)
  {
    totals' := totals;
    var parsed := ParseLine(line, key, nums);
    if parsed.Some? {
      var (server, value) := parsed.value;
      var entry := EntryOf(totals, server, metrics);
      assert EntryInv(totals, lines, metrics, server, key, nums);
      var metric := MetricOf(line, metrics);
      MetricsAreListed(line, metrics);
      if metric.Some? {
        entry := entry[metric.value := entry[metric.value] + value];
      }
      totals' := totals[server := entry];
      MentionedEntry(totals, totals', lines, line, metrics, server, value, key, nums);
    }
    forall server | !Mentions(line, server, key, nums)
      ensures EntryInv(totals', lines + [line], metrics, server, key, nums)
    {
      OthersKeepTheirEntry(totals, totals', lines, line, metrics, server, key, nums);
    }
  }

  /** `_take_snapshot`: one entry per server mentioned, all metrics starting from zero. */
  method TakeSnapshot(lines: seq<string>, metrics: seq<string>, key: string, nums: Numerals)
    returns (totals: Totals)
    ensures forall server :: EntryInv(totals, lines, metrics, server, key, nums)
  {
    totals := map[];
    for i := 0 to |lines|
      invariant forall server :: EntryInv(totals, lines[..i], metrics, server, key, nums)
    {
      totals := Credit(totals, lines[i], metrics, key, nums, lines[..i]);
      assert lines[..i + 1] == lines[..i] + [lines[i]];
    }
    assert lines[..|lines|] == lines;
  }

  // ---------------------------------------------------------------- printed text, read back

  /** A line of the exposition: a sample with a server label, or anything else (help, type and blank
      lines, other metrics). */
  datatype Item = Counted(sample: Sample) | Raw(text: string)

  function LineOf(item: Item, key: string, chain: Chain, show: real -> string): string {
    match item
    case Counted(s) => PrintSample(s, key, chain, show)
    case Raw(text) => text
  }

  function Lines(items: seq<Item>, key: string, chain: Chain, show: real -> string): seq<string> {
    seq(|items|, i requires 0 <= i < |items| => LineOf(items[i], key, chain, show))
  }

  /** The counter values themselves, summed over all other labels. */
  function SumOf(items: seq<Item>, metric: string, server: string): real {
    if items == [] then 0.0
    else
      var n := |items| - 1;
      SumOf(items[..n], metric, server) +
      if items[n].Counted? && items[n].sample.name == metric && items[n].sample.server == server
      then items[n].sample.value else 0.0
  }

  predicate GoodItem(item: Item, key: string, metrics: seq<string>, nums: Numerals) {
    match item
    case Counted(s) => Readable(s, key) && Faithful(nums, s.value)
    case Raw(text) => MetricOf(text, metrics).None?
  }

  /** Parsing the printed lines gives every server exactly the sum of its counter values over all
      other labels, whatever quotes, spaces or backslashes those labels hold. */
  lemma {:induction false} PrintedSumsAreRead(items: seq<Item>, metrics: seq<string>, metric: string, server: string,
                                              key: string, chain: Chain, nums: Numerals)
    requires PrinterSetting(key, chain) && metric in metrics
    requires forall i | 0 <= i < |metrics| :: '{' !in metrics[i]
    requires forall i | 0 <= i < |items| :: GoodItem(items[i], key, metrics, nums)
    ensures SumFor(Lines(items, key, chain, nums.show), metrics, metric, server, key, nums) == SumOf(items, metric, server)
    decreases |items|
  {
    if items != [] {
      var n := |items| - 1;
      var lines := Lines(items, key, chain, nums.show);
      assert lines[..n] == Lines(items[..n], key, chain, nums.show);
      PrintedSumsAreRead(items[..n], metrics, metric, server, key, chain, nums);
      assert GoodItem(items[n], key, metrics, nums);
      if items[n].Counted? {
        SampleCounts(items[n].sample, key, chain, nums, metrics);
      }
    }
  }

  /** Values that hold no line break other than the newline the printer escapes. */
  predicate OnlyNewlines(v: string) {
    forall i | 0 <= i < |v| :: IsBreak(v[i]) ==> v[i] == '\n'
  }

  predicate OneLiners(labels: seq<Label>) {
    forall i | 0 <= i < |labels| :: NoBreak(labels[i].key) && OnlyNewlines(labels[i].value)
  }

  predicate EscapesNewlines(chain: Chain) {
    && Orderly(chain) && IsSpecial('\n', chain)
    && forall i | 0 <= i < |chain| :: !IsBreak(chain[i].code)
  }

  lemma {:induction false} EscapedIsOneLine(v: string, chain: Chain)
    requires EscapesNewlines(chain) && OnlyNewlines(v)
    ensures NoBreak(Escape(v, chain))
  {
    if v != [] {
      EscapedIsOneLine(v[1..], chain);
      CodesComeFromTheChain(v[0], chain);
    }
  }

  lemma {:induction false} LabelsAreOneLine(labels: seq<Label>, chain: Chain)
    requires EscapesNewlines(chain) && OneLiners(labels)
    ensures NoBreak(PrintLabels(labels, chain))
  {
    if labels != [] {
      ChainIsPerCharacter(labels[0].value, chain);
      EscapedIsOneLine(labels[0].value, chain);
      LabelsAreOneLine(labels[1..], chain);
    }
  }

  predicate OneLineItem(item: Item) {
    match item
    case Counted(s) => NoBreak(s.name) && OneLiners(s.before) && OneLiners(s.after) && NoBreak(s.server)
    case Raw(text) => NoBreak(text)
  }

  lemma ItemIsOneLine(item: Item, key: string, chain: Chain, nums: Numerals)
    requires EscapesNewlines(chain) && OneLineItem(item) && NoBreak(key)
    requires item.Counted? ==> Faithful(nums, item.sample.value)
    ensures NoBreak(LineOf(item, key, chain, nums.show))
  {
    if item.Counted? {
      var s := item.sample;
      assert OneLiners(LabelsOf(s, key));
      LabelsAreOneLine(LabelsOf(s, key), chain);
    }
  }

  /** The same for the text the registry hands over: its lines joined, the last one empty. */
  lemma PrintedTextIsRead(items: seq<Item>, metrics: seq<string>, metric: string, server: string,
                          key: string, chain: Chain, nums: Numerals)
    requires PrinterSetting(key, chain) && EscapesNewlines(chain) && NoBreak(key)
    requires metric in metrics && forall i | 0 <= i < |metrics| :: '{' !in metrics[i]
    requires items != [] && forall i | 0 <= i < |items| :: GoodItem(items[i], key, metrics, nums) && OneLineItem(items[i])
    ensures
      var text := Join(Lines(items, key, chain, nums.show) + [""], "\n");
      SumFor(SplitLines(text), metrics, metric, server, key, nums) == SumOf(items, metric, server)
  {
    var lines := Lines(items, key, chain, nums.show);
    forall i | 0 <= i < |lines| ensures NoBreak(lines[i]) {
      assert GoodItem(items[i], key, metrics, nums);
      ItemIsOneLine(items[i], key, chain, nums);
    }
    JoinWithEmptyEnd(lines);
    SplitJoined(lines);
    PrintedSumsAreRead(items, metrics, metric, server, key, chain, nums);
  }

  // ---------------------------------------------------------------- lines that break in two

  lemma {:induction false} NeedleNeedsAQuote(s: string, word: string)
    requires NoQuote(s) && NoQuote(word)
    ensures Cut(s, word + ['"']) == None
  {
    if |s| > |word| {
      assert s[..|word| + 1][|word|] == s[|word|] != (word + ['"'])[|word|];
      NeedleNeedsAQuote(s[1..], word);
    }
  }

  /** A line whose last token is no number, as every line that ends within a label is, counts for
      nothing, and so does one in which no quote stands behind the word. */
  lemma BrokenLinesCountForNothing(first: string, y: string, end: string, metrics: seq<string>, metric: string,
                                   server: string, key: string, nums: Numerals)
    requires nums.read(LastToken(first)) == None
    requires NoQuote(y) && NoQuote(end) && NoQuote(key) && key != "" && !EndsWith(y, key + ['='])
    ensures SumFor([first, y + (['"'] + end)], metrics, metric, server, key, nums) == 0.0
  {
    var lines := [first, y + (['"'] + end)];
    CutAtFirstQuote(y, end, key + ['=']);
    NeedleNeedsAQuote(end, key + ['=']);
    assert lines[..1] == [first] && [first][..0] == [];
    assert SumFor([first], metrics, metric, server, key, nums) == 0.0;
  }

  /** A carriage return in a label behind the server's splits the printed line, and the count is lost:
      the printer escapes no line break but the newline. */
  lemma CarriageReturnLosesTheCount(before: string, y: string, end: string, metrics: seq<string>, metric: string,
                                    server: string, key: string, nums: Numerals)
    requires NoBreak(before) && NoBreak(y) && NoBreak(end) && y != ""
    requires nums.read(LastToken(before)) == None
    requires NoQuote(y) && NoQuote(end) && NoQuote(key) && key != "" && !EndsWith(y, key + ['='])
    ensures SumFor(SplitLines(before + "\r" + (y + (['"'] + end)) + "\n"), metrics, metric, server, key, nums) == 0.0
  {
    var second := y + (['"'] + end);
    assert NoBreak(second);
    SplitAtReturn(before, second + "\n");
    SplitOnly(second);
    assert before + "\r" + second + "\n" == before + "\r" + (second + "\n");
    assert [before] + [second] == [before, second];
    BrokenLinesCountForNothing(before, y, end, metrics, metric, server, key, nums);
  }

  lemma {:induction false} FirstBreakAtReturn(a: string, rest: string)
    requires NoBreak(a)
    ensures FirstBreak(a + "\r" + rest) == |a|
  {
    var s := a + "\r" + rest;
    if a != [] {
      assert s[1..] == a[1..] + "\r" + rest;
      FirstBreakAtReturn(a[1..], rest);
    }
  }

  lemma SplitAtReturn(a: string, rest: string)
    requires NoBreak(a) && rest != "" && rest[0] != '\n'
    ensures SplitLines(a + "\r" + rest) == [a] + SplitLines(rest)
  {
    var s := a + "\r" + rest;
    FirstBreakAtReturn(a, rest);
    assert s[..|a|] == a && s[|a|..] == "\r" + rest && ("\r" + rest)[1] == rest[0];
    assert s[|a| + 1..] == rest;
  }

  const SERVER_KEY := "mcp_server"
  const LABEL_VALUE: Chain := [Replacement('\\', '\\'), Replacement('"', '"'), Replacement('\n', 'n')]

  /** The printer's own escape chain and label name meet the assumptions above. */
  lemma PrinterSettingHolds()
    ensures PrinterSetting(SERVER_KEY, LABEL_VALUE) && EscapesNewlines(LABEL_VALUE) && NoBreak(SERVER_KEY)
  {
    assert CodeOf('\n', LABEL_VALUE[1..]) == Some('n');
    assert CodeOf('"', LABEL_VALUE) == Some('"');
  }

  /** A counterexample outside them: an error type that ends with the word sends the count of
      server `a` elsewhere. */
  lemma MisleadingErrorTypeIsMisread(tail: string)
    ensures
      var s := Sample("mcp_hangar_tool_call_errors_total", [Label("error_type", "bad " + SERVER_KEY + ['='])], "a", [], 1.0);
      ServerOf(s.name + "{" + PrintLabels(LabelsOf(s, SERVER_KEY), LABEL_VALUE) + tail, SERVER_KEY + ['=']) != Some("a")
  {
    PrinterSettingHolds();
    ErrorTypeIsPlain();
    ErrorTypeEndsSo();
    EndingIsMisread("mcp_hangar_tool_call_errors_total", Label("error_type", "bad " + SERVER_KEY + ['=']), "a", tail,
                    SERVER_KEY, LABEL_VALUE);
  }

  lemma ErrorTypeIsPlain()
    ensures NoQuote("mcp_hangar_tool_call_errors_total")
    ensures NoQuote("error_type") && !EndsWith("error_type", SERVER_KEY)
  {
    assert "error_type"[9] == 'e' && SERVER_KEY[9] == 'r';
  }

  lemma ErrorTypeEndsSo()
    ensures EndsWith("bad " + SERVER_KEY + ['='], SERVER_KEY + ['=']) && PlainServer("a")
  {
    assert "bad " + SERVER_KEY + ['='] == "bad " + (SERVER_KEY + ['=']);
  }

  lemma EndingIsMisread(name: string, first: Label, server: string, tail: string, key: string, chain: Chain)
    requires PrinterSetting(key, chain) && NoQuote(name)
    requires NoQuote(first.key) && !EndsWith(first.key, key) && EndsWith(first.value, key + ['='])
    requires PlainServer(server) && server != [] && server[0] != ','
    ensures
      var s := Sample(name, [first], server, [], 1.0);
      ServerOf(s.name + "{" + PrintLabels(LabelsOf(s, key), chain) + tail, key + ['=']) != Some(server)
  {
    var s := Sample(name, [first], server, [], 1.0);
    assert EndsWith(s.before[0].value, key + ['=']);
    ReadLabels(name + "{", s, tail, key, chain);
  }
}
