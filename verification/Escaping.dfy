/**
 Backslash escaping, as the SIEM formatters and the metrics printer do it: a chain of string
 replacements on the way out, and a reference reader on the way in.
 */
module Escaping {
  import opened Strings
  import opened Options

  /** One `.replace(special, "\\" + code)`. */
  datatype Replacement = Replacement(special: char, code: char)

  type Chain = seq<Replacement>

  // ---------------------------------------------------------------- writing

  /** `s.replace(r.special, "\\" + r.code)`. */
  function Replace(s: string, r: Replacement): string {
    if s == [] then []
    else (if s[0] == r.special then ['\\', r.code] else [s[0]]) + Replace(s[1..], r)
  }

  function ReplaceAll(s: string, chain: Chain): string
    decreases |chain|
  {
    if chain == [] then s else ReplaceAll(Replace(s, chain[0]), chain[1..])
  }

  /** A chain that starts with the backslash and never revisits what it wrote. */
  predicate Orderly(chain: Chain) {
    && chain != [] && chain[0] == Replacement('\\', '\\')
    && (forall i, j | 0 <= i < j < |chain| ::
          chain[j].special != '\\' && chain[j].special != chain[i].special && chain[j].special != chain[i].code)
    && (forall i, j | 0 <= i < j < |chain| :: chain[i].code != chain[j].code)
  }

  function CodeOf(c: char, chain: Chain): Option<char> {
    if chain == [] then None
    else if chain[0].special == c then Some(chain[0].code)
    else CodeOf(c, chain[1..])
  }

  function EscapeChar(c: char, chain: Chain): string {
    match CodeOf(c, chain)
    case Some(code) => ['\\', code]
    case None => [c]
  }

  /** The per-character escape the chain amounts to. */
  function Escape(s: string, chain: Chain): string {
    if s == [] then [] else EscapeChar(s[0], chain) + Escape(s[1..], chain)
  }

  lemma {:induction false} ReplaceConcat(a: string, b: string, r: Replacement)
    ensures Replace(a + b, r) == Replace(a, r) + Replace(b, r)
  {
    if a == [] {
      assert a + b == b;
    } else {
      assert (a + b)[1..] == a[1..] + b;
      ReplaceConcat(a[1..], b, r);
    }
  }

  lemma {:induction false} ReplaceAllConcat(a: string, b: string, chain: Chain)
    ensures ReplaceAll(a + b, chain) == ReplaceAll(a, chain) + ReplaceAll(b, chain)
    decreases |chain|
  {
    if chain != [] {
      ReplaceConcat(a, b, chain[0]);
      ReplaceAllConcat(Replace(a, chain[0]), Replace(b, chain[0]), chain[1..]);
    }
  }

  predicate Untouched(s: string, chain: Chain) {
    forall i, j | 0 <= i < |s| && 0 <= j < |chain| :: s[i] != chain[j].special
  }

  lemma {:induction false} ReplaceUntouched(s: string, r: Replacement)
    requires forall i | 0 <= i < |s| :: s[i] != r.special
    ensures Replace(s, r) == s
  {
    if s != [] { ReplaceUntouched(s[1..], r); }
  }

  lemma {:induction false} ReplaceAllUntouched(s: string, chain: Chain)
    requires Untouched(s, chain)
    ensures ReplaceAll(s, chain) == s
    decreases |chain|
  {
    if chain != [] {
      ReplaceUntouched(s, chain[0]);
      ReplaceAllUntouched(s, chain[1..]);
    }
  }

  lemma {:induction false} ReplaceAllChar(c: char, chain: Chain)
    requires forall i, j | 0 <= i < j < |chain| :: chain[j].special != '\\' && chain[j].special != chain[i].code
    ensures ReplaceAll([c], chain) == EscapeChar(c, chain)
    decreases |chain|
  {
    if chain != [] {
      assert Replace([c], chain[0]) == if c == chain[0].special then ['\\', chain[0].code] else [c];
      if c == chain[0].special {
        ReplaceAllUntouched(['\\', chain[0].code], chain[1..]);
      } else {
        ReplaceAllChar(c, chain[1..]);
      }
    }
  }

  /** The chained replacements equal the per-character escape. */
  lemma {:induction false} ChainIsPerCharacter(s: string, chain: Chain)
    requires Orderly(chain)
    ensures ReplaceAll(s, chain) == Escape(s, chain)
    decreases |s|
  {
    if s == [] {
      ReplaceAllUntouched(s, chain);
    } else {
      assert s == [s[0]] + s[1..];
      ReplaceAllConcat([s[0]], s[1..], chain);
      ReplaceAllChar(s[0], chain);
      ChainIsPerCharacter(s[1..], chain);
    }
  }

  /** Replacing the backslash second would escape the escapes: the order of the chain matters. */
  lemma BackslashMustComeFirst()
    ensures ReplaceAll("|", [Replacement('|', '|'), Replacement('\\', '\\')]) == "\\\\|" != "\\|"
  {
    assert Replace("|", Replacement('|', '|')) == "\\|";
    assert "\\|"[1..] == "|" && Replace("|", Replacement('\\', '\\')) == "|";
    assert Replace("\\|", Replacement('\\', '\\')) == "\\\\|";
  }

  // ---------------------------------------------------------------- reading

  function SpecialOf(code: char, chain: Chain): Option<char> {
    if chain == [] then None
    else if chain[0].code == code then Some(chain[0].special)
    else SpecialOf(code, chain[1..])
  }

  /** The text a backslash and the character after it stand for; an unknown pair is kept as it is. */
  function Unpair(code: char, chain: Chain): string {
    match SpecialOf(code, chain)
    case Some(c) => [c]
    case None => ['\\', code]
  }

  function Unescape(s: string, chain: Chain): string {
    if s == [] then []
    else if s[0] == '\\' && |s| > 1 then Unpair(s[1], chain) + Unescape(s[2..], chain)
    else [s[0]] + Unescape(s[1..], chain)
  }

  /** The raw text up to the first `stop` that no backslash protects, and what follows it. */
  function SplitAt(s: string, stop: char): Option<(string, string)>
    decreases |s|
  {
    if s == [] then None
    else if s[0] == stop then Some(([], s[1..]))
    else
      var n := if s[0] == '\\' && |s| > 1 then 2 else 1;
      match SplitAt(s[n..], stop)
      case None => None
      case Some((raw, rest)) => Some((s[..n] + raw, rest))
  }

  lemma {:induction false} CodesInvert(c: char, chain: Chain)
    requires forall i, j | 0 <= i < j < |chain| :: chain[i].code != chain[j].code
    requires CodeOf(c, chain).Some?
    ensures SpecialOf(CodeOf(c, chain).value, chain) == Some(c)
    ensures exists i | 0 <= i < |chain| :: chain[i].code == CodeOf(c, chain).value
  {
    if chain[0].special != c {
      CodesInvert(c, chain[1..]);
      var i :| 0 <= i < |chain[1..]| && chain[1..][i].code == CodeOf(c, chain).value;
      assert chain[0].code != chain[i + 1].code;
    }
  }

  /** Reading undoes escaping, whatever the text: trailing backslashes included. */
  lemma {:induction false} UnescapeEscape(s: string, chain: Chain)
    requires Orderly(chain)
    ensures Unescape(Escape(s, chain), chain) == s
  {
    if s != [] {
      var head, tail := EscapeChar(s[0], chain), Escape(s[1..], chain);
      UnescapeEscape(s[1..], chain);
      if CodeOf(s[0], chain).Some? {
        CodesInvert(s[0], chain);
        assert (head + tail)[2..] == tail;
      } else {
        assert s[0] != '\\';
        assert (head + tail)[1..] == tail;
      }
    }
  }

  predicate IsSpecial(c: char, chain: Chain) {
    CodeOf(c, chain).Some?
  }

  lemma {:induction false} SplitAtPlain(plain: string, stop: char, rest: string)
    requires '\\' !in plain && stop !in plain
    ensures SplitAt(plain + [stop] + rest, stop) == Some((plain, rest))
  {
    var s := plain + [stop] + rest;
    if plain == [] {
      assert s[1..] == rest;
    } else {
      SplitAtPlain(plain[1..], stop, rest);
      assert s[1..] == plain[1..] + [stop] + rest;
      assert s[..1] + plain[1..] == plain;
    }
  }

  /** Reading moves over one escaped character as a unit. */
  lemma SplitAtHead(c: char, tail: string, stop: char, chain: Chain)
    requires Orderly(chain) && IsSpecial(stop, chain) && stop != '\\'
    ensures
      SplitAt(EscapeChar(c, chain) + tail, stop) == PrependTo(EscapeChar(c, chain), SplitAt(tail, stop))
  {
    var head := EscapeChar(c, chain);
    assert CodeOf(c, chain).None? ==> c != '\\' && c != stop;
    assert (head + tail)[|head|..] == tail && (head + tail)[..|head|] == head;
  }

  /** An escaped value never hides or fakes an unprotected `stop`: splitting looks past it. */
  lemma {:induction false} SplitLooksPast(v: string, text: string, stop: char, chain: Chain)
    requires Orderly(chain) && IsSpecial(stop, chain) && stop != '\\'
    ensures SplitAt(Escape(v, chain) + text, stop) == PrependTo(Escape(v, chain), SplitAt(text, stop))
  {
    if v == [] {
      assert Escape(v, chain) + text == text;
      assert SplitAt(text, stop).Some? ==> [] + SplitAt(text, stop).value.0 == SplitAt(text, stop).value.0;
    } else {
      var head, tail := EscapeChar(v[0], chain), Escape(v[1..], chain);
      SplitLooksPast(v[1..], text, stop, chain);
      SplitAtHead(v[0], tail + text, stop, chain);
      Regroup(head, tail, text);
      if SplitAt(text, stop).Some? {
        Regroup(head, tail, SplitAt(text, stop).value.0);
      }
    }
  }

  function PrependTo(head: string, split: Option<(string, string)>): Option<(string, string)> {
    match split
    case None => None
    case Some((raw, rest)) => Some((head + raw, rest))
  }

  lemma SplitAfterEscaped(v: string, stop: char, rest: string, chain: Chain)
    requires Orderly(chain) && IsSpecial(stop, chain) && stop != '\\'
    ensures SplitAt(Escape(v, chain) + ([stop] + rest), stop) == Some((Escape(v, chain), rest))
  {
    SplitLooksPast(v, [stop] + rest, stop, chain);
    assert ([stop] + rest)[1..] == rest;
    assert Escape(v, chain) + [] == Escape(v, chain);
  }

  lemma NoSplitInEscaped(v: string, stop: char, chain: Chain)
    requires Orderly(chain) && IsSpecial(stop, chain) && stop != '\\'
    ensures SplitAt(Escape(v, chain), stop) == None
  {
    SplitLooksPast(v, "", stop, chain);
    assert Escape(v, chain) + "" == Escape(v, chain);
  }

  /** Text without specials is printed as it is. */
  lemma {:induction false} EscapePlain(s: string, chain: Chain)
    requires forall i | 0 <= i < |s| :: !IsSpecial(s[i], chain)
    ensures Escape(s, chain) == s
  {
    if s != [] { EscapePlain(s[1..], chain); }
  }
}
