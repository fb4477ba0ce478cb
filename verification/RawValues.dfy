/**
 Values that are printed without escaping: what a reader makes of them, said in terms of their text.
 */
module RawValues {
  import opened Options
  import opened Escaping
  import opened SiemFormats

  lemma {:induction false} PlainTextReads(s: string, chain: Chain)
    requires '\\' !in s
    ensures Unescape(s, chain) == s
    ensures '=' !in s ==> SplitAt(s, '=').None?
    ensures '\t' !in s ==> SplitAt(s, '\t').None? && SplitAt(s + ['\t'], '\t') == Some((s, []))
  {
    if s == [] {
      EmptyHidesNothing();
    } else {
      PlainTextReads(s[1..], chain);
      assert (s + ['\t'])[1..] == s[1..] + ['\t'] && (s + ['\t'])[..1] == [s[0]];
      assert [s[0]] + s[1..] == s;
    }
  }

  /** No backslash stands before a character that the chain uses as a code. */
  predicate NoEscapes(s: string, chain: Chain) {
    forall i | 0 <= i < |s| - 1 && s[i] == '\\' :: SpecialOf(s[i + 1], chain).None?
  }

  /** Every `stop` stands directly behind a backslash. */
  predicate Guarded(s: string, stop: char) {
    forall i | 0 <= i < |s| && s[i] == stop :: i > 0 && s[i - 1] == '\\'
  }

  predicate EndsInBackslash(s: string) {
    s != [] && s[|s| - 1] == '\\'
  }

  /** A text is taken whole and stands for itself exactly when it holds no escape and guards its
      delimiters. */
  lemma {:induction false} UnescapedAsIs(s: string, stop: char, chain: Chain)
    requires SpecialOf('\\', chain).Some? && stop != '\\'
    ensures SplitAt(s, stop).None? && Unescape(s, chain) == s <==> NoEscapes(s, chain) && Guarded(s, stop)
    decreases |s|
  {
    if s == [] {
    } else if s[0] == '\\' && |s| > 1 {
      var rest := s[2..];
      UnescapedAsIs(rest, stop, chain);
      UnescapeShrinks(rest, chain);
      assert s == [s[0], s[1]] + rest;
      if SpecialOf(s[1], chain).None? {
        assert Unescape(s, chain) == [s[0], s[1]] + Unescape(rest, chain);
        assert Unescape(s, chain)[2..] == Unescape(rest, chain);
        TailAsIs(s, 2, stop, chain);
      }
    } else {
      var rest := s[1..];
      UnescapedAsIs(rest, stop, chain);
      assert s == [s[0]] + rest;
      assert Unescape(s, chain)[1..] == Unescape(rest, chain);
      if s[0] != stop { TailAsIs(s, 1, stop, chain); }
    }
  }

  /** Behind a character that is no backslash a text is judged by itself. */
  lemma TailAsIs(s: string, n: nat, stop: char, chain: Chain)
    requires 1 <= n <= |s| && n <= 2
    requires n == 1 ==> s[0] != stop && (s[0] != '\\' || |s| == 1)
    requires n == 2 ==> s[0] == '\\' != stop && s[1] != '\\' && SpecialOf(s[1], chain).None?
    ensures NoEscapes(s, chain) <==> NoEscapes(s[n..], chain)
    ensures Guarded(s, stop) <==> Guarded(s[n..], stop)
  {
    var rest := s[n..];
    assert forall i | 0 <= i < |rest| :: rest[i] == s[n + i];
    if NoEscapes(rest, chain) {
      forall i | 0 <= i < |s| - 1 && s[i] == '\\' ensures SpecialOf(s[i + 1], chain).None? {
        if i >= n { assert rest[i - n] == s[i] && rest[i - n + 1] == s[i + 1]; }
      }
    }
    if NoEscapes(s, chain) {
      forall i | 0 <= i < |rest| - 1 && rest[i] == '\\' ensures SpecialOf(rest[i + 1], chain).None? {
        assert s[n + i] == rest[i] && s[n + i + 1] == rest[i + 1];
      }
    }
    if Guarded(rest, stop) {
      forall i | 0 <= i < |s| && s[i] == stop ensures i > 0 && s[i - 1] == '\\' {
        if i >= n {
          assert rest[i - n] == s[i];
          assert i > n && rest[i - n - 1] == s[i - 1];
        }
      }
    }
    if Guarded(s, stop) {
      forall i | 0 <= i < |rest| && rest[i] == stop ensures i > 0 && rest[i - 1] == '\\' {
        assert s[n + i] == rest[i] && s[n + i - 1] == '\\';
      }
    }
  }

  /** A delimiter that is a code itself cannot be guarded without an escape. */
  lemma GuardedEscapes(s: string, stop: char, chain: Chain)
    requires SpecialOf(stop, chain).Some?
    ensures NoEscapes(s, chain) && Guarded(s, stop) <==> NoEscapes(s, chain) && stop !in s
  {
    if NoEscapes(s, chain) && Guarded(s, stop) {
      forall i | 0 <= i < |s| ensures s[i] != stop {
        if i > 0 && s[i - 1] == '\\' {
          var j := i - 1;
          assert SpecialOf(s[j + 1], chain).None?;
        }
      }
    }
  }

  /** Before another delimiter it must not end in a backslash either. */
  lemma {:induction false} FollowedAsIs(s: string, stop: char, chain: Chain)
    requires SpecialOf('\\', chain).Some? && stop != '\\'
    ensures SplitAt(s + [stop], stop) == Some((s, [])) && Unescape(s, chain) == s
       <==> NoEscapes(s, chain) && Guarded(s, stop) && !EndsInBackslash(s)
  {
    UnescapedAsIs(s, stop, chain);
    if SplitAt(s, stop).Some? {
      SplitIsStable(s, [stop], stop);
      SplitAtCuts(s, stop);
    } else if NoEscapes(s, chain) && Guarded(s, stop) {
      EndsDecide(s, stop, chain);
    }
  }

  lemma {:induction false} EndsDecide(s: string, stop: char, chain: Chain)
    requires SpecialOf('\\', chain).Some? && stop != '\\' && NoEscapes(s, chain) && SplitAt(s, stop).None?
    ensures SplitAt(s + [stop], stop) == Some((s, [])) <==> !EndsInBackslash(s)
    decreases |s|
  {
    if s == [] {
      assert (s + [stop])[1..] == [];
    } else if s[0] == '\\' && |s| == 1 {
      assert (s + [stop])[2..] == [];
    } else {
      var n := if s[0] == '\\' then 2 else 1;
      var tail := s[n..];
      assert n == 2 ==> SpecialOf(s[0 + 1], chain).None?;
      assert forall i | 0 <= i < |tail| :: tail[i] == s[n + i];
      EndsDecide(tail, stop, chain);
      SplitBehind(s, n, stop);
    }
  }

  lemma SplitBehind(s: string, n: nat, stop: char)
    requires n <= |s| && s != [] && s[0] != stop && n == if s[0] == '\\' then 2 else 1
    ensures SplitAt(s + [stop], stop) == Some((s, [])) <==> SplitAt(s[n..] + [stop], stop) == Some((s[n..], []))
  {
    var t := s + [stop];
    assert t[n..] == s[n..] + [stop] && t[..n] == s[..n] && s[..n] + s[n..] == s;
    if SplitAt(s[n..] + [stop], stop).Some? {
      var raw := SplitAt(s[n..] + [stop], stop).value.0;
      assert (s[..n] + raw)[n..] == raw;
    }
  }

  lemma CodesOfTheChains()
    ensures SpecialOf('\\', CEF_EXTENSION).Some? && SpecialOf('=', CEF_EXTENSION).Some?
    ensures SpecialOf('\\', LEEF_VALUE).Some?
  {
    assert CEF_EXTENSION[1..][0] == Replacement('=', '=');
  }
}
