/**
 Server-sent events: the streaming reader that works on a growing buffer, against the reader of a
 whole body. JSON decoding is a parameter.
 */
module Sse {
  import opened Options
  import opened TextLines

  /** What decoding a data line gives: an object that may bear our request's id and may hold a
      `result` or `error`; or something without `.get`, which makes the first reading raise, and the
      second one too if it is `loud`: a number, a boolean or null, or text or a list in which `result`
      or `error` is found. */
  datatype Decoded<M> =
    | Invalid
    | Object(mine: bool, answers: bool, msg: M)
    | NotAnObject(loud: bool)

  datatype Verdict<M> = Pass | Match(msg: M) | Raise

  const SEP := "\n\n"

  // ---------------------------------------------------------------- one event

  function Lstrip(s: string): string {
    if s != [] && IsSpace(s[0]) then Lstrip(s[1..]) else s
  }

  function Rstrip(s: string): string {
    if s != [] && IsSpace(s[|s| - 1]) then Rstrip(s[..|s| - 1]) else s
  }

  function Strip(s: string): string {
    Rstrip(Lstrip(s))
  }

  /** `event.split("\n")`. */
  function Rows(s: string): seq<string>
    decreases |s|
  {
    match Cut(s, "\n")
    case None => [s]
    case Some((row, rest)) =>
      CutShrinks(s, "\n");
      [row] + Rows(rest)
  }

  lemma {:induction false} CutShrinks(s: string, sep: string)
    ensures Cut(s, sep).Some? ==> s == Cut(s, sep).value.0 + sep + Cut(s, sep).value.1 && |Cut(s, sep).value.1| < |s|
  {
    if sep != [] && |s| >= |sep| && s[..|sep|] != sep {
      CutShrinks(s[1..], sep);
    }
  }

  /** The last non-empty `data:` content among the rows. */
  function DataLine(rows: seq<string>): Option<string> {
    if rows == [] then None
    else
      var n := |rows| - 1;
      var row := Strip(rows[n]);
      if StartsWith(row, "data:") && Strip(row[5..]) != [] then Some(Strip(row[5..]))
      else DataLine(rows[..n])
  }

  /** `_parse_sse_event`. */
  method ParseEvent<M>(event: string, decode: string -> Decoded<M>) returns (v: Verdict<M>)
    ensures v == Judge(event, decode)
  {
    var data: Option<string> := None;
    var rows := Rows(event);
    for i := 0 to |rows|
      invariant data == DataLine(rows[..i])
    {
      assert rows[..i + 1][..i] == rows[..i];
      var row := Strip(rows[i]);
      if StartsWith(row, "data:") {
        var content := Strip(row[5..]);
        if content != [] {
          data := Some(content);
        }
      }
    }
    assert rows[..|rows|] == rows;
    if data.None? {
      return Pass;
    }
    var decoded := decode(data.value);
    if decoded.NotAnObject? {
      return Raise;
    }
    return if decoded.Object? && decoded.mine then Match(decoded.msg) else Pass;
  }

  function Judge<M>(event: string, decode: string -> Decoded<M>): Verdict<M> {
    match DataLine(Rows(event))
    case None => Pass
    case Some(data) =>
      match decode(data)
      case Object(mine, _, msg) => if mine then Match(msg) else Pass
      case NotAnObject(_) => Raise
      case Invalid => Pass
  }

  // ---------------------------------------------------------------- events of a text

  /** The terminated events of a text, and the unterminated rest. */
  function Drain(s: string): (seq<string>, string)
    decreases |s|
  {
    match Cut(s, SEP)
    case None => ([], s)
    case Some((event, rest)) =>
      CutShrinks(s, SEP);
      var (events, remainder) := Drain(rest);
      ([event] + events, remainder)
  }

  function Terminated(events: seq<string>): string {
    if events == [] then [] else events[0] + SEP + Terminated(events[1..])
  }

  /** Draining loses no text. */
  lemma {:induction false} DrainLosesNothing(s: string)
    ensures Terminated(Drain(s).0) + Drain(s).1 == s
    decreases |s|
  {
    if Cut(s, SEP).Some? {
      CutShrinks(s, SEP);
      var (event, rest) := Cut(s, SEP).value;
      DrainLosesNothing(rest);
      var (events, remainder) := Drain(rest);
      assert ([event] + events)[1..] == events;
      assert event + SEP + Terminated(events) + remainder == event + SEP + (Terminated(events) + remainder);
    } else {
      assert [] + s == s;
    }
  }

  /** A separator found once stays the first one, whatever arrives later. */
  lemma {:induction false} CutIsStable(s: string, t: string, sep: string)
    requires Cut(s, sep).Some?
    ensures Cut(s + t, sep) == Some((Cut(s, sep).value.0, Cut(s, sep).value.1 + t))
  {
    assert (s + t)[..|sep|] == s[..|sep|];
    if s[..|sep|] == sep {
      assert (s + t)[|sep|..] == s[|sep|..] + t;
    } else {
      assert (s + t)[1..] == s[1..] + t;
      CutIsStable(s[1..], t, sep);
    }
  }

  /** Draining as the text grows yields the same events as draining it whole, even when a separator
      arrives in two pieces. */
  lemma {:induction false} DrainIsIncremental(s: string, t: string)
    ensures
      var (events, rest) := Drain(s);
      Drain(s + t) == (events + Drain(rest + t).0, Drain(rest + t).1)
    decreases |s|
  {
    if Cut(s, SEP).Some? {
      var (event, rest) := Cut(s, SEP).value;
      CutIsStable(s, t, SEP);
      CutShrinks(s, SEP);
      DrainIsIncremental(rest, t);
      var (events, remainder) := Drain(rest);
      assert [event] + (events + Drain(remainder + t).0) == ([event] + events) + Drain(remainder + t).0;
    } else {
      assert [] + Drain(s + t).0 == Drain(s + t).0;
    }
  }

  function Concat(chunks: seq<string>): string {
    if chunks == [] then [] else Concat(chunks[..|chunks| - 1]) + chunks[|chunks| - 1]
  }

  /** The verdict of the first event that has one. */
  function First<M>(events: seq<string>, decode: string -> Decoded<M>): Verdict<M> {
    if events == [] then Pass
    else if Judge(events[0], decode) != Pass then Judge(events[0], decode)
    else First(events[1..], decode)
  }

  lemma {:induction false} FirstConcat<M>(a: seq<string>, b: seq<string>, decode: string -> Decoded<M>)
    ensures First(a + b, decode) == if First(a, decode) != Pass then First(a, decode) else First(b, decode)
  {
    if a == [] {
      assert a + b == b;
    } else {
      assert (a + b)[1..] == a[1..] + b;
      FirstConcat(a[1..], b, decode);
    }
  }

  // ---------------------------------------------------------------- the streaming reader

  /** Takes every complete event out of the buffer, up to the first that decides. */
  method ProcessBuffer<M(==)>(start: string, decode: string -> Decoded<M>) returns (v: Verdict<M>, buffer: string)
    ensures v == First(Drain(start).0, decode)
    ensures v == Pass ==> buffer == Drain(start).1
  {
    buffer := start;
    while Cut(buffer, SEP).Some?
      invariant First(Drain(start).0, decode) == First(Drain(buffer).0, decode)
      invariant Drain(start).1 == Drain(buffer).1
      decreases |buffer|
    {
      var (event, rest) := Cut(buffer, SEP).value;
      CutShrinks(buffer, SEP);
      assert ([event] + Drain(rest).0)[1..] == Drain(rest).0;
      v := ParseEvent(event, decode);
      buffer := rest;
      if v != Pass {
        return;
      }
    }
    v := Pass;
  }

  datatype StreamResult<M> = Found(msg: M) | StreamError | EndedWithoutResponse

  function StreamOutcome<M>(v: Verdict<M>): StreamResult<M> {
    match v
    case Pass => EndedWithoutResponse
    case Match(m) => Found(m)
    case Raise => StreamError
  }

  /** `_handle_sse_response`, for a stream that neither times out nor breaks off: the answer depends
      on the concatenated text only, not on where it was cut into chunks. */
  method HandleStream<M(==)>(chunks: seq<string>, decode: string -> Decoded<M>) returns (r: StreamResult<M>)
    ensures r == StreamOutcome(First(Drain(Concat(chunks)).0, decode))
  {
    var buffer := "";
    for i := 0 to |chunks|
      invariant Drain(Concat(chunks[..i])).1 == buffer
      invariant First(Drain(Concat(chunks[..i])).0, decode) == Pass
    {
      ghost var before := Concat(chunks[..i]);
      assert chunks[..i + 1][..i] == chunks[..i];
      assert Concat(chunks[..i + 1]) == before + chunks[i];
      DrainIsIncremental(before, chunks[i]);
      if chunks[i] == "" {
        assert before + chunks[i] == before;
        continue;
      }
      FirstConcat(Drain(before).0, Drain(buffer + chunks[i]).0, decode);
      var v;
      v, buffer := ProcessBuffer(buffer + chunks[i], decode);
      if v != Pass {
        StreamDecidedEarly(chunks, i, decode);
        return StreamOutcome(v);
      }
    }
    assert chunks[..|chunks|] == chunks;
    return EndedWithoutResponse;
  }

  /** What has been decided by a prefix of the chunks is what the whole stream decides. */
  lemma StreamDecidedEarly<M>(chunks: seq<string>, i: nat, decode: string -> Decoded<M>)
    requires i < |chunks| && First(Drain(Concat(chunks[..i + 1])).0, decode) != Pass
    ensures First(Drain(Concat(chunks)).0, decode) == First(Drain(Concat(chunks[..i + 1])).0, decode)
  {
    ConcatSplits(chunks, i + 1);
    var s, t := Concat(chunks[..i + 1]), Concat(chunks[i + 1..]);
    DrainIsIncremental(s, t);
    FirstConcat(Drain(s).0, Drain(Drain(s).1 + t).0, decode);
  }

  lemma {:induction false} ConcatSplits(chunks: seq<string>, k: nat)
    requires k <= |chunks|
    ensures Concat(chunks) == Concat(chunks[..k]) + Concat(chunks[k..])
  {
    if k == |chunks| {
      assert chunks[..k] == chunks;
    } else {
      var n := |chunks| - 1;
      ConcatSplits(chunks[..n], k);
      assert chunks[..n][..k] == chunks[..k];
      assert chunks[k..][..n - k] == chunks[..n][k..];
    }
  }

  // ---------------------------------------------------------------- the whole-body reader

  /** `body.split("\n\n")`. */
  function Pieces(body: string): seq<string> {
    Drain(body).0 + [Drain(body).1]
  }

  predicate AllSpace(s: string) {
    forall i | 0 <= i < |s| :: IsSpace(s[i])
  }

  lemma {:induction false} StripBlank(s: string)
    ensures Strip(s) == [] <==> AllSpace(s)
  {
    LstripBlank(s);
    if !AllSpace(s) {
      RstripKeeps(Lstrip(s));
    }
  }

  lemma {:induction false} LstripBlank(s: string)
    ensures AllSpace(s) ==> Lstrip(s) == []
    ensures !AllSpace(s) ==> Lstrip(s) != [] && !IsSpace(Lstrip(s)[0])
  {
    if s != [] && IsSpace(s[0]) {
      LstripBlank(s[1..]);
      assert AllSpace(s) <==> AllSpace(s[1..]) by {
        if AllSpace(s[1..]) {
          forall i | 0 <= i < |s| ensures IsSpace(s[i]) { assert i == 0 || s[i] == s[1..][i - 1]; }
        }
      }
    }
  }

  lemma {:induction false} RstripKeeps(s: string)
    requires s != [] && !IsSpace(s[0])
    ensures Rstrip(s) != []
  {
    if IsSpace(s[|s| - 1]) {
      RstripKeeps(s[..|s| - 1]);
    }
  }

  lemma {:induction false} BlankRows(s: string)
    requires AllSpace(s)
    ensures forall i | 0 <= i < |Rows(s)| :: AllSpace(Rows(s)[i])
    decreases |s|
  {
    if Cut(s, "\n").Some? {
      CutShrinks(s, "\n");
      var (row, rest) := Cut(s, "\n").value;
      assert forall i | 0 <= i < |row| :: row[i] == s[i];
      assert forall i | 0 <= i < |rest| :: rest[i] == s[|row| + 1 + i];
      BlankRows(rest);
    }
  }

  lemma {:induction false} BlankRowsHaveNoData(rows: seq<string>)
    requires forall i | 0 <= i < |rows| :: AllSpace(rows[i])
    ensures DataLine(rows) == None && AllData(rows) == []
    decreases |rows|
  {
    if rows != [] {
      StripBlank(rows[|rows| - 1]);
      StripBlank(rows[0]);
      BlankRowsHaveNoData(rows[..|rows| - 1]);
      BlankRowsHaveNoData(rows[1..]);
    }
  }

  /** Skipping blank events changes nothing. */
  lemma BlankEventsPass<M>(event: string, decode: string -> Decoded<M>)
    requires Strip(event) == []
    ensures Judge(event, decode) == Pass && AllData(Rows(event)) == []
  {
    StripBlank(event);
    BlankRows(event);
    BlankRowsHaveNoData(Rows(event));
  }

  // ---------------------------------------------------------------- its second pass

  /** The `data:` content of a row, unless it is empty. */
  function DataOf(row: string): Option<string> {
    if StartsWith(Strip(row), "data:") && Strip(Strip(row)[5..]) != [] then Some(Strip(Strip(row)[5..])) else None
  }

  /** Every such content among the rows. */
  function AllData(rows: seq<string>): seq<string> {
    if rows == [] then []
    else if DataOf(rows[0]).Some? then [DataOf(rows[0]).value] + AllData(rows[1..])
    else AllData(rows[1..])
  }

  function EventData(events: seq<string>): seq<string> {
    if events == [] then [] else AllData(Rows(events[0])) + EventData(events[1..])
  }

  /** The looser look at one data line, whatever id it bears. */
  function Glance<M>(data: string, decode: string -> Decoded<M>): Verdict<M> {
    match decode(data)
    case Object(_, answers, msg) => if answers then Match(msg) else Pass
    case NotAnObject(loud) => if loud then Raise else Pass
    case Invalid => Pass
  }

  function FirstGlance<M>(data: seq<string>, decode: string -> Decoded<M>): Verdict<M> {
    if data == [] then Pass
    else if Glance(data[0], decode) != Pass then Glance(data[0], decode)
    else FirstGlance(data[1..], decode)
  }

  lemma {:induction false} FirstGlanceConcat<M>(a: seq<string>, b: seq<string>, decode: string -> Decoded<M>)
    ensures FirstGlance(a + b, decode) ==
            if FirstGlance(a, decode) != Pass then FirstGlance(a, decode) else FirstGlance(b, decode)
  {
    if a == [] {
      assert a + b == b;
    } else {
      assert (a + b)[1..] == a[1..] + b;
      FirstGlanceConcat(a[1..], b, decode);
    }
  }

  /** The inner loop of the second pass. */
  method GlanceAtEvent<M(==)>(event: string, decode: string -> Decoded<M>) returns (v: Verdict<M>)
    ensures v == FirstGlance(AllData(Rows(event)), decode)
  {
    var rows := Rows(event);
    for i := 0 to |rows|
      invariant FirstGlance(AllData(rows), decode) == FirstGlance(AllData(rows[i..]), decode)
    {
      GlanceAtRow(rows, i, decode);
      var content := DataOf(rows[i]);
      if content.Some? {
        v := Glance(content.value, decode);
        if v != Pass {
          return;
        }
      }
    }
    v := Pass;
  }

  lemma GlanceAtRow<M>(rows: seq<string>, i: nat, decode: string -> Decoded<M>)
    requires i < |rows|
    ensures FirstGlance(AllData(rows[i..]), decode) ==
            if DataOf(rows[i]).Some? && Glance(DataOf(rows[i]).value, decode) != Pass
            then Glance(DataOf(rows[i]).value, decode)
            else FirstGlance(AllData(rows[i + 1..]), decode)
  {
    assert rows[i..][1..] == rows[i + 1..];
    if DataOf(rows[i]).Some? {
      assert AllData(rows[i..])[1..] == AllData(rows[i + 1..]);
    }
  }

  /** What the body reader makes of a body. */
  function BodyVerdict<M(==)>(body: string, decode: string -> Decoded<M>): Verdict<M> {
    var v := First(Pieces(body), decode);
    if v != Pass then v else FirstGlance(EventData(Pieces(body)), decode)
  }

  /** `_parse_sse_body`: the first matching piece; without one, the first data line that holds a
      result or an error. */
  method ParseBody<M(==)>(body: string, decode: string -> Decoded<M>) returns (v: Verdict<M>)
    ensures v == BodyVerdict(body, decode)
  {
    var events := Pieces(body);
    v := MatchById(events, decode);
    if v != Pass {
      return;
    }
    for i := 0 to |events|
      invariant FirstGlance(EventData(events), decode) == FirstGlance(EventData(events[i..]), decode)
    {
      assert events[i..][1..] == events[i + 1..];
      FirstGlanceConcat(AllData(Rows(events[i])), EventData(events[i + 1..]), decode);
      if Strip(events[i]) == [] {
        BlankEventsPass(events[i], decode);
        continue;
      }
      v := GlanceAtEvent(events[i], decode);
      if v != Pass {
        return;
      }
    }
    v := Pass;
  }

  /** The first pass. */
  method MatchById<M(==)>(events: seq<string>, decode: string -> Decoded<M>) returns (v: Verdict<M>)
    ensures v == First(events, decode)
  {
    for i := 0 to |events|
      invariant First(events, decode) == First(events[i..], decode)
    {
      if Strip(events[i]) == [] {
        BlankEventsPass(events[i], decode);
        continue;
      }
      v := ParseEvent(events[i], decode);
      if v != Pass {
        return;
      }
    }
    v := Pass;
  }

  /** No data line holds an answer for anybody, nor anything that makes the second pass raise. */
  predicate Silent<M(!new)>(data: seq<string>, decode: string -> Decoded<M>) {
    forall i | 0 <= i < |data| :: decode(data[i]).Invalid? || (decode(data[i]).Object? && !decode(data[i]).answers)
                                  || (decode(data[i]).NotAnObject? && !decode(data[i]).loud)
  }

  /** The second pass finds nothing exactly in such data. */
  lemma {:induction false} SilentDataPasses<M(!new)>(data: seq<string>, decode: string -> Decoded<M>)
    ensures FirstGlance(data, decode) == Pass <==> Silent(data, decode)
  {
    if data != [] {
      SilentDataPasses(data[1..], decode);
      if Silent(data[1..], decode) && Glance(data[0], decode) == Pass {
        assert forall i | 0 < i < |data| :: data[i] == data[1..][i - 1];
      }
    }
  }

  /** Whatever the stream decides the whole body decides alike. Where the stream decides nothing the
      body decides nothing either exactly when its unterminated last piece bears no match and no data
      line anywhere answers for someone else; otherwise the two differ. */
  lemma StreamAgreesWithBody<M(!new)>(chunks: seq<string>, decode: string -> Decoded<M>)
    ensures
      var body := Concat(chunks);
      var streamed := First(Drain(body).0, decode);
      BodyVerdict(body, decode) == streamed <==>
        || streamed != Pass
        || (Judge(Drain(body).1, decode) == Pass && Silent(EventData(Pieces(body)), decode))
  {
    var body := Concat(chunks);
    SilentDataPasses(EventData(Pieces(body)), decode);
    FirstConcat(Drain(body).0, [Drain(body).1], decode);
    assert [Drain(body).1][1..] == [];
  }
}
