/**
 The three formatters on an audit record: which fields it prints, under which keys and in which order,
 and when the printed line gives them back.
 */
module AuditLines {
  import opened Strings
  import opened Options
  import opened Escaping
  import opened SiemFormats
  import opened RawValues

  /** What the formatters read of a record, values already turned into text. `millis` and `devTime`
      are the two forms of its time. */
  datatype AuditRecord = AuditRecord(
    eventType: string, eventId: Option<string>, millis: int, devTime: string, provider: Option<string>,
    user: Option<string>, agent: Option<string>, session: Option<string>, principal: Option<string>,
    tool: Option<string>, status: Option<string>, duration: Option<string>, error: Option<string>,
    fromState: Option<string>, toState: Option<string>)

  /** A value that is neither missing nor empty. */
  function Truthy(value: Option<string>): Option<string> {
    if value == Some("") then None else value
  }

  function Digits(n: nat): string {
    if n < 10 then [('0' as int + n) as char] else Digits(n / 10) + Digits(n % 10)
  }

  function Decimal(n: int): string {
    if n < 0 then "-" + Digits(-n) else Digits(n)
  }

  lemma {:induction false} DigitsArePlain(n: nat)
    ensures forall i | 0 <= i < |Digits(n)| :: '0' <= Digits(n)[i] <= '9'
  {
    if n >= 10 {
      DigitsArePlain(n / 10);
      DigitsArePlain(n % 10);
    }
  }

  lemma DecimalsArePlain(n: int)
    ensures PlainKey(Decimal(n))
  {
    DigitsArePlain(if n < 0 then -n else n);
  }

  // ---------------------------------------------------------------- tables of fields

  /** A field that is printed if it has a value, escaped unless it is raw. */
  datatype Slot = Slot(key: string, value: Option<string>, raw: bool)

  function AttrOf(s: Slot): Attr
    requires s.value.Some?
  {
    Attr(s.key, s.value.value, s.raw)
  }

  /** The entries that the conditional appends of a formatter leave. */
  function Present(slots: seq<Slot>): seq<Attr> {
    if slots == [] then []
    else if slots[0].value.Some? then [AttrOf(slots[0])] + Present(slots[1..])
    else Present(slots[1..])
  }

  lemma {:induction false} PresentConcat(a: seq<Slot>, b: seq<Slot>)
    ensures Present(a + b) == Present(a) + Present(b)
  {
    if a == [] {
      assert a + b == b;
    } else {
      assert (a + b)[1..] == a[1..] + b;
      PresentConcat(a[1..], b);
    }
  }

  /** The value under a key. */
  function Find(pairs: seq<Pair>, key: string): Option<string> {
    if pairs == [] then None
    else if pairs[0].key == key then Some(pairs[0].value)
    else Find(pairs[1..], key)
  }

  lemma {:induction false} FindConcat(a: seq<Pair>, b: seq<Pair>, key: string)
    ensures Find(a + b, key) == if Find(a, key).Some? then Find(a, key) else Find(b, key)
  {
    if a == [] {
      assert a + b == b;
    } else {
      assert (a + b)[1..] == a[1..] + b;
      FindConcat(a[1..], b, key);
    }
  }

  lemma FindAt(parsed: seq<Pair>, n: nat, key: string)
    requires n < |parsed| && Find(parsed[..n], key) == None && parsed[n].key == key
    ensures Find(parsed, key) == Some(parsed[n].value)
  {
    FindConcat(parsed[..n], parsed[n..], key);
    assert parsed == parsed[..n] + parsed[n..];
  }

  lemma {:induction false} AbsentKey(slots: seq<Slot>, key: string)
    requires forall i | 0 <= i < |slots| :: slots[i].key != key
    ensures Find(PairsOf(Present(slots)), key) == None
  {
    if slots != [] {
      AbsentKey(slots[1..], key);
      if slots[0].value.Some? { PairsHead(Present(slots)); }
    }
  }

  /** Where keys differ, every slot's value, or its absence, is found under its key. */
  lemma {:induction false} PresentFinds(slots: seq<Slot>, i: nat)
    requires i < |slots| && forall j, k | 0 <= j < k < |slots| :: slots[j].key != slots[k].key
    ensures Find(PairsOf(Present(slots)), slots[i].key) == slots[i].value
  {
    if slots[0].value.Some? { PairsHead(Present(slots)); }
    if i == 0 {
      AbsentKey(slots[1..], slots[0].key);
    } else {
      PresentFinds(slots[1..], i - 1);
    }
  }

  lemma {:induction false} PresentIsPlain(slots: seq<Slot>)
    requires forall i | 0 <= i < |slots| :: PlainKey(slots[i].key)
    ensures PlainAttrs(Present(slots))
  {
    if slots != [] {
      PresentIsPlain(slots[1..]);
    }
  }

  lemma {:induction false} PresentIsEmpty(slots: seq<Slot>)
    ensures Present(slots) == [] <==> forall i | 0 <= i < |slots| :: slots[i].value.None?
  {
    if slots != [] {
      PresentIsEmpty(slots[1..]);
      assert forall i | 0 < i < |slots| :: slots[i] == slots[1..][i - 1];
      assert forall i | 0 <= i < |slots| - 1 :: slots[1..][i] == slots[i + 1];
    }
  }

  /** The entries are legible exactly when the values of the slots are. */
  lemma {:induction false} PresentLegible(slots: seq<Slot>, chain: Chain)
    ensures AllLegible(Present(slots), chain)
       <==> forall i | 0 <= i < |slots| && slots[i].value.Some? :: Legible(AttrOf(slots[i]), chain)
  {
    if slots != [] {
      var rest := slots[1..];
      PresentLegible(rest, chain);
      assert forall i | 0 < i < |slots| :: slots[i] == rest[i - 1];
      assert forall i | 0 <= i < |rest| :: rest[i] == slots[i + 1];
      if slots[0].value.Some? { SplitLegible(Present(slots), chain); }
    }
  }

  lemma {:induction false} PresentLegibleFields(slots: seq<Slot>, chain: Chain)
    ensures AllLegibleFields(Present(slots), false, chain)
       <==> forall i | 0 <= i < |slots| && slots[i].value.Some? ::
              LegibleField(AttrOf(slots[i]), Present(slots[i + 1..]) == [], chain)
  {
    if slots != [] {
      var rest := slots[1..];
      PresentLegibleFields(rest, chain);
      assert forall i | 0 < i < |slots| :: slots[i] == rest[i - 1] && slots[i + 1..] == rest[i..];
      assert forall i | 0 <= i < |rest| :: rest[i] == slots[i + 1] && rest[i + 1..] == slots[i + 2..];
      if slots[0].value.Some? { SplitLegibleFields(Present(slots), chain); }
    }
  }

  // ---------------------------------------------------------------- CEF

  function Named(value: Option<string>, name: string): Option<string> {
    if value.None? then None else Some(name)
  }

  function CefStart(r: AuditRecord): seq<Slot> {
    [Slot("rt", Some(Decimal(r.millis)), true), Slot("dvchost", Some("mcp-hangar"), true),
     Slot("act", Some(r.eventType), false), Slot("externalId", Truthy(r.eventId), false)]
  }

  /** The custom fields, each with the name it goes by. */
  function CefIdentity(r: AuditRecord): seq<Slot> {
    [Slot("cs1", Truthy(r.provider), false), Slot("cs1Label", Named(Truthy(r.provider), "ProviderID"), true),
     Slot("suser", Truthy(r.user), false),
     Slot("cs2", Truthy(r.agent), false), Slot("cs2Label", Named(Truthy(r.agent), "AgentID"), true),
     Slot("cs3", Truthy(r.session), false), Slot("cs3Label", Named(Truthy(r.session), "SessionID"), true)]
  }

  function CefCall(r: AuditRecord): seq<Slot> {
    [Slot("cs4", Truthy(r.principal), false), Slot("cs4Label", Named(Truthy(r.principal), "PrincipalType"), true),
     Slot("cs5", Truthy(r.tool), false), Slot("cs5Label", Named(Truthy(r.tool), "ToolName"), true)]
  }

  function CefEnd(r: AuditRecord): seq<Slot> {
    [Slot("cn1", r.duration, true), Slot("cn1Label", Named(r.duration, "DurationMs"), true),
     Slot("reason", Truthy(r.error), false)]
  }

  function CefSlots(r: AuditRecord): seq<Slot> {
    CefStart(r) + CefIdentity(r) + CefCall(r) + CefEnd(r)
  }

  function CefPosition(key: string): nat {
    if key == "rt" then 0 else if key == "dvchost" then 1 else if key == "act" then 2
    else if key == "externalId" then 3 else if key == "cs1" then 4 else if key == "cs1Label" then 5
    else if key == "suser" then 6 else if key == "cs2" then 7 else if key == "cs2Label" then 8
    else if key == "cs3" then 9 else if key == "cs3Label" then 10 else if key == "cs4" then 11
    else if key == "cs4Label" then 12 else if key == "cs5" then 13 else if key == "cs5Label" then 14
    else if key == "cn1" then 15 else if key == "cn1Label" then 16 else 17
  }

  /** A slot of a table: its key is plain and stands at its place, its value needs no care. */
  predicate Sound(s: Slot, position: nat) {
    PlainKey(s.key) && CefPosition(s.key) == position && (s.raw && s.value.Some? ==> PlainKey(s.value.value))
  }

  lemma CefStartIsSound(r: AuditRecord)
    ensures forall i | 0 <= i < 4 :: Sound(CefStart(r)[i], i)
  {
    DecimalsArePlain(r.millis);
  }

  lemma CefIdentityIsSound(r: AuditRecord)
    ensures forall i | 0 <= i < 7 :: Sound(CefIdentity(r)[i], 4 + i)
  {
  }

  lemma CefCallIsSound(r: AuditRecord)
    ensures forall i | 0 <= i < 4 :: Sound(CefCall(r)[i], 11 + i)
  {
  }

  lemma CefEndIsSound(r: AuditRecord)
    ensures forall i | 1 <= i < 3 :: Sound(CefEnd(r)[i], 15 + i)
    ensures PlainKey(CefEnd(r)[0].key) && CefPosition(CefEnd(r)[0].key) == 15
  {
  }

  lemma CefSlotsAreSound(r: AuditRecord, i: nat)
    requires i < 18
    ensures |CefSlots(r)| == 18 && PlainKey(CefSlots(r)[i].key) && CefPosition(CefSlots(r)[i].key) == i
    ensures i != 15 ==> Sound(CefSlots(r)[i], i)
    ensures i == 15 ==> CefSlots(r)[i] == Slot("cn1", r.duration, true)
  {
    if i < 4 {
      CefStartIsSound(r);
      assert CefSlots(r)[i] == CefStart(r)[i];
    } else if i < 11 {
      CefIdentityIsSound(r);
      assert CefSlots(r)[i] == CefIdentity(r)[i - 4];
    } else if i < 15 {
      CefCallIsSound(r);
      assert CefSlots(r)[i] == CefCall(r)[i - 11];
    } else {
      CefEndIsSound(r);
      assert CefSlots(r)[i] == CefEnd(r)[i - 15];
    }
  }

  /** A duration that a CEF reader takes as it was printed: it holds no equals sign, and no backslash
      before a character that could be an escape. Numbers are such. */
  predicate CefDurationReads(r: AuditRecord) {
    r.duration.Some? ==> '=' !in r.duration.value && NoEscapes(r.duration.value, CEF_EXTENSION)
  }

  lemma CefDurationIsLegible(r: AuditRecord)
    ensures r.duration.Some? ==> (Legible(Attr("cn1", r.duration.value, true), CEF_EXTENSION) <==> CefDurationReads(r))
  {
    if r.duration.Some? {
      CodesOfTheChains();
      UnescapedAsIs(r.duration.value, '=', CEF_EXTENSION);
      GuardedEscapes(r.duration.value, '=', CEF_EXTENSION);
    }
  }

  lemma SoundIsLegible(s: Slot, position: nat, chain: Chain)
    requires Sound(s, position) && s.value.Some? && Protects(chain, '=')
    ensures Legible(AttrOf(s), chain)
  {
    if s.raw {
      PlainTextReads(s.value.value, chain);
    } else {
      EscapedIsLegible(AttrOf(s), chain);
    }
  }

  /** All fields of the table but the duration are legible. */
  lemma CefSlotsAreLegible(r: AuditRecord, i: nat)
    requires i < 18 && i != 15
    ensures |CefSlots(r)| == 18
    ensures CefSlots(r)[i].value.Some? ==> Legible(AttrOf(CefSlots(r)[i]), CEF_EXTENSION)
  {
    ChainsProtect();
    CefSlotsAreSound(r, i);
    if CefSlots(r)[i].value.Some? { SoundIsLegible(CefSlots(r)[i], i, CEF_EXTENSION); }
  }

  lemma CefReads(r: AuditRecord)
    ensures PlainAttrs(Present(CefSlots(r))) && Present(CefSlots(r)) != []
    ensures AllLegible(Present(CefSlots(r)), CEF_EXTENSION) <==> CefDurationReads(r)
  {
    var slots := CefSlots(r);
    forall i | 0 <= i < |slots| ensures PlainKey(slots[i].key) { CefSlotsAreSound(r, i); }
    PresentIsPlain(slots);
    PresentLegible(slots, CEF_EXTENSION);
    CefSlotsAreSound(r, 15);
    CefDurationIsLegible(r);
    forall i | 0 <= i < |slots| && i != 15 && slots[i].value.Some? ensures Legible(AttrOf(slots[i]), CEF_EXTENSION) {
      CefSlotsAreLegible(r, i);
    }
    if r.duration.Some? { assert AttrOf(slots[15]) == Attr("cn1", r.duration.value, true); }
  }

  /** Every field of the record stands under its key. */
  predicate CefCarries(pairs: seq<Pair>, r: AuditRecord) {
    && Find(pairs, "rt") == Some(Decimal(r.millis)) && Find(pairs, "act") == Some(r.eventType)
    && Find(pairs, "externalId") == Truthy(r.eventId) && Find(pairs, "cs1") == Truthy(r.provider)
    && Find(pairs, "suser") == Truthy(r.user) && Find(pairs, "cs2") == Truthy(r.agent)
    && Find(pairs, "cs3") == Truthy(r.session) && Find(pairs, "cs4") == Truthy(r.principal)
    && Find(pairs, "cs5") == Truthy(r.tool) && Find(pairs, "cn1") == r.duration
    && Find(pairs, "reason") == Truthy(r.error)
  }

  lemma CefKeysDiffer(r: AuditRecord, j: nat, k: nat)
    requires j < k < 18
    ensures |CefSlots(r)| == 18 && CefSlots(r)[j].key != CefSlots(r)[k].key
  {
    CefSlotsAreSound(r, j);
    CefSlotsAreSound(r, k);
  }

  lemma CefSlotsAreFound(r: AuditRecord)
    ensures |CefSlots(r)| == 18
    ensures forall i | 0 <= i < 18 :: Find(PairsOf(Present(CefSlots(r))), CefSlots(r)[i].key) == CefSlots(r)[i].value
  {
    var slots := CefSlots(r);
    forall j, k | 0 <= j < k < 18 ensures slots[j].key != slots[k].key { CefKeysDiffer(r, j, k); }
    forall i | 0 <= i < 18 ensures Find(PairsOf(Present(slots)), slots[i].key) == slots[i].value {
      PresentFinds(slots, i);
    }
  }

  lemma CefCarriesItsFields(r: AuditRecord)
    ensures CefCarries(PairsOf(Present(CefSlots(r))), r)
  {
    CefSlotsAreFound(r);
    var slots := CefSlots(r);
    assert slots[..4] == CefStart(r) && slots[4..11] == CefIdentity(r) && slots[11..15] == CefCall(r) && slots[15..] == CefEnd(r);
    assert slots[0] == CefStart(r)[0] && slots[2] == CefStart(r)[2] && slots[3] == CefStart(r)[3];
    assert slots[4] == CefIdentity(r)[0] && slots[6] == CefIdentity(r)[2] && slots[7] == CefIdentity(r)[3]
           && slots[9] == CefIdentity(r)[5];
    assert slots[11] == CefCall(r)[0] && slots[13] == CefCall(r)[2];
    assert slots[15] == CefEnd(r)[0] && slots[17] == CefEnd(r)[2];
  }

  /** A duration that cannot be printed as it is is misread, after all before it was read. */
  lemma MisreadDuration(r: AuditRecord)
    requires !CefDurationReads(r)
    ensures
      var attrs := Present(CefSlots(r));
      attrs != [] &&
      Find(ParseValues(attrs[0].key, Text(attrs[0], CEF_EXTENSION) + AfterFirst(attrs, ' ', CEF_EXTENSION), CEF_EXTENSION), "cn1")
      != r.duration
  {
    var slots, attrs := CefSlots(r), Present(CefSlots(r));
    CefReads(r);
    CefSlotsAreSound(r, 15);
    CefDurationIsLegible(r);
    var before := Present(slots[..15]);
    assert slots == slots[..15] + slots[15..];
    PresentConcat(slots[..15], slots[15..]);
    assert attrs[..|before|] == before && attrs[|before|] == Attr("cn1", r.duration.value, true);
    forall i | 0 <= i < 15 && slots[i].value.Some? ensures Legible(AttrOf(slots[..15][i]), CEF_EXTENSION) {
      CefSlotsAreLegible(r, i);
    }
    PresentLegible(slots[..15], CEF_EXTENSION);
    ChainsProtect();
    ValuesUpTo(attrs, |before|, CEF_EXTENSION);
    forall i | 0 <= i < 15 ensures slots[..15][i].key != "cn1" { CefKeysDiffer(r, i, 15); }
    AbsentKey(slots[..15], "cn1");
    FindAt(ParseValues(attrs[0].key, Text(attrs[0], CEF_EXTENSION) + AfterFirst(attrs, ' ', CEF_EXTENSION), CEF_EXTENSION),
           |before|, "cn1");
  }

  const DEVICE := "MCP Hangar"
  const DEVICE_VERSION := "0.15.0"

  function CefHeader(signature: string, name: string, severity: nat): seq<string> {
    ["CEF:0", DEVICE, DEVICE, DEVICE_VERSION, signature, name, Digits(severity)]
  }

  /** The header fields as the formatter joins them: the first and the last one are not escaped. */
  function HeaderParts(signature: string, name: string, severity: nat): seq<string> {
    ["CEF:0", ReplaceAll(DEVICE, CEF_HEADER), ReplaceAll(DEVICE, CEF_HEADER), ReplaceAll(DEVICE_VERSION, CEF_HEADER),
     ReplaceAll(signature, CEF_HEADER), ReplaceAll(name, CEF_HEADER), Digits(severity)]
  }

  lemma PlainPartsStay(severity: nat)
    ensures ReplaceAll("CEF:0", CEF_HEADER) == "CEF:0" && ReplaceAll(Digits(severity), CEF_HEADER) == Digits(severity)
  {
    DigitsArePlain(severity);
    ReplaceAllUntouched(Digits(severity), CEF_HEADER);
    ReplaceAllUntouched("CEF:0", CEF_HEADER);
  }

  lemma HeaderPartsAreEscaped(fields: seq<string>, parts: seq<string>, chain: Chain)
    requires |fields| == |parts| == 7 && ReplaceAll(fields[0], chain) == fields[0] && ReplaceAll(fields[6], chain) == fields[6]
    requires parts == [fields[0], ReplaceAll(fields[1], chain), ReplaceAll(fields[2], chain), ReplaceAll(fields[3], chain),
                       ReplaceAll(fields[4], chain), ReplaceAll(fields[5], chain), fields[6]]
    ensures parts == ReplacedFields(fields, chain)
  {
  }

  /** `format_audit_record`; signature, name and severity come from tables. The line is read back as
      its header and a list in which every field of the record stands under its key, exactly when the
      duration can be printed as it is. */
  method FormatAuditRecord(r: AuditRecord, signature: string, name: string, severity: nat) returns (line: string)
    ensures
      var parsed := ParseCef(line, 7, CEF_HEADER, CEF_EXTENSION);
      && parsed.Some? && parsed.value.fields == CefHeader(signature, name, severity)
      && (CefCarries(parsed.value.pairs, r) <==> CefDurationReads(r))
  {
    line := Join(HeaderParts(signature, name, severity), "|") + "|" + Join(Parts(Present(CefSlots(r)), CEF_EXTENSION), " ");
    PlainPartsStay(severity);
    HeaderPartsAreEscaped(CefHeader(signature, name, severity), HeaderParts(signature, name, severity), CEF_HEADER);
    CefRecordsReadBack(r, CefHeader(signature, name, severity));
  }

  /** The line of an audit record gives back its header and every field, whatever text the record
      holds, exactly when its duration can be printed as it is: that one value is not escaped. */
  lemma CefRecordsReadBack(r: AuditRecord, header: seq<string>)
    requires header != []
    ensures
      var parsed := ParseCef(CefText(header, Present(CefSlots(r)), CEF_HEADER, CEF_EXTENSION), |header|, CEF_HEADER, CEF_EXTENSION);
      && parsed.Some? && parsed.value.fields == header
      && (CefCarries(parsed.value.pairs, r) <==> CefDurationReads(r))
  {
    CefReads(r);
    CefCarriesItsFields(r);
    CefIsUnambiguous(header, Present(CefSlots(r)));
    CefParses(header, Present(CefSlots(r)));
    if !CefDurationReads(r) {
      MisreadDuration(r);
    }
  }

  /** Two records that print as one line are the same to a reader: every field agrees. */
  lemma CefLinesTellRecordsApart(r: AuditRecord, r': AuditRecord, header: seq<string>, header': seq<string>)
    requires header != [] && |header| == |header'| && CefDurationReads(r) && CefDurationReads(r')
    requires CefText(header, Present(CefSlots(r)), CEF_HEADER, CEF_EXTENSION)
             == CefText(header', Present(CefSlots(r')), CEF_HEADER, CEF_EXTENSION)
    ensures header == header' && Decimal(r.millis) == Decimal(r'.millis)
    ensures r.eventType == r'.eventType && Truthy(r.eventId) == Truthy(r'.eventId)
    ensures Truthy(r.provider) == Truthy(r'.provider) && Truthy(r.user) == Truthy(r'.user)
    ensures Truthy(r.agent) == Truthy(r'.agent) && Truthy(r.session) == Truthy(r'.session)
    ensures Truthy(r.principal) == Truthy(r'.principal) && Truthy(r.tool) == Truthy(r'.tool)
    ensures r.duration == r'.duration && Truthy(r.error) == Truthy(r'.error)
  {
    CefRecordsReadBack(r, header);
    CefRecordsReadBack(r', header');
  }

  // ---------------------------------------------------------------- LEEF

  function Protocol(r: AuditRecord): string {
    if r.eventType == "ProviderStateChanged" then "provider" else "tool"
  }

  function LeefStart(r: AuditRecord): seq<Slot> {
    [Slot("devTime", Some(r.devTime), false), Slot("proto", Some(Protocol(r)), true),
     Slot("usrName", Truthy(r.user), false), Slot("sessID", Truthy(r.session), false), Slot("action", r.tool, false)]
  }

  function LeefEnd(r: AuditRecord): seq<Slot> {
    [Slot("duration", r.duration, true), Slot("reason", r.error, false), Slot("oldState", r.fromState, false),
     Slot("newState", r.toState, false), Slot("src", Truthy(r.provider), false)]
  }

  function LeefSlots(r: AuditRecord): seq<Slot> {
    LeefStart(r) + LeefEnd(r)
  }

  function LeefPosition(key: string): nat {
    if key == "devTime" then 0 else if key == "proto" then 1 else if key == "usrName" then 2
    else if key == "sessID" then 3 else if key == "action" then 4 else if key == "duration" then 5
    else if key == "reason" then 6 else if key == "oldState" then 7 else if key == "newState" then 8 else 9
  }

  predicate LeefSound(s: Slot, position: nat) {
    PlainKey(s.key) && LeefPosition(s.key) == position && (s.raw && s.value.Some? && position != 5 ==> PlainKey(s.value.value))
  }

  lemma LeefStartIsSound(r: AuditRecord)
    ensures forall i | 0 <= i < 5 :: LeefSound(LeefStart(r)[i], i)
  {
  }

  lemma LeefEndIsSound(r: AuditRecord)
    ensures forall i | 0 <= i < 5 :: LeefSound(LeefEnd(r)[i], 5 + i)
    ensures forall i | 1 <= i < 5 :: !LeefEnd(r)[i].raw
  {
  }

  lemma LeefSlotsAreSound(r: AuditRecord, i: nat)
    requires i < 10
    ensures |LeefSlots(r)| == 10 && LeefSound(LeefSlots(r)[i], i)
    ensures i == 5 ==> LeefSlots(r)[i] == Slot("duration", r.duration, true)
  {
    if i < 5 {
      LeefStartIsSound(r);
      assert LeefSlots(r)[i] == LeefStart(r)[i];
    } else {
      LeefEndIsSound(r);
      assert LeefSlots(r)[i] == LeefEnd(r)[i - 5];
    }
  }

  lemma LeefSlotsAreLegible(r: AuditRecord, i: nat, last: bool)
    requires i < 10 && i != 5
    ensures |LeefSlots(r)| == 10
    ensures LeefSlots(r)[i].value.Some? ==> LegibleField(AttrOf(LeefSlots(r)[i]), last, LEEF_VALUE)
  {
    ChainsProtect();
    LeefSlotsAreSound(r, i);
    var s := LeefSlots(r)[i];
    if s.value.Some? {
      if s.raw {
        PlainTextReads(s.value.value, LEEF_VALUE);
      } else {
        EscapedIsLegibleField(AttrOf(s), last, LEEF_VALUE);
      }
    }
  }

  /** Some attribute follows the duration. */
  predicate Followed(r: AuditRecord) {
    r.error.Some? || r.fromState.Some? || r.toState.Some? || Truthy(r.provider).Some?
  }

  lemma FollowedIsPresent(r: AuditRecord)
    ensures Followed(r) <==> Present(LeefSlots(r)[6..]) != []
  {
    var rest, end := LeefSlots(r)[6..], LeefEnd(r);
    assert rest == end[1..];
    PresentIsEmpty(rest);
    assert rest[0] == end[1] && rest[1] == end[2] && rest[2] == end[3] && rest[3] == end[4];
  }

  /** A duration that a LEEF reader takes as it was printed: tabs only behind a backslash, no
      backslash before a character that could be an escape, and none at the end before another
      attribute. */
  predicate LeefDurationReads(r: AuditRecord) {
    r.duration.Some? ==>
      && NoEscapes(r.duration.value, LEEF_VALUE) && Guarded(r.duration.value, '\t')
      && (Followed(r) ==> !EndsInBackslash(r.duration.value))
  }

  lemma LeefDurationIsLegible(r: AuditRecord)
    ensures r.duration.Some? ==>
              (LegibleField(Attr("duration", r.duration.value, true), !Followed(r), LEEF_VALUE) <==> LeefDurationReads(r))
  {
    if r.duration.Some? {
      CodesOfTheChains();
      UnescapedAsIs(r.duration.value, '\t', LEEF_VALUE);
      FollowedAsIs(r.duration.value, '\t', LEEF_VALUE);
    }
  }

  lemma LeefReads(r: AuditRecord)
    ensures PlainAttrs(Present(LeefSlots(r))) && Present(LeefSlots(r)) != []
    ensures AllLegibleFields(Present(LeefSlots(r)), false, LEEF_VALUE) <==> LeefDurationReads(r)
  {
    var slots := LeefSlots(r);
    forall i | 0 <= i < |slots| ensures PlainKey(slots[i].key) { LeefSlotsAreSound(r, i); }
    PresentIsPlain(slots);
    PresentLegibleFields(slots, LEEF_VALUE);
    LeefSlotsAreSound(r, 5);
    FollowedIsPresent(r);
    LeefDurationIsLegible(r);
    forall i | 0 <= i < |slots| && i != 5 && slots[i].value.Some?
      ensures LegibleField(AttrOf(slots[i]), Present(slots[i + 1..]) == [], LEEF_VALUE)
    {
      LeefSlotsAreLegible(r, i, Present(slots[i + 1..]) == []);
    }
    if r.duration.Some? { assert AttrOf(slots[5]) == Attr("duration", r.duration.value, true); }
  }

  /** The attributes of a LEEF line are read back, whatever text the record holds, exactly when its
      duration, which is not escaped, can be printed as it is. */
  lemma LeefRecordsReadBack(r: AuditRecord)
    ensures ParseAttributes(Join(Parts(Present(LeefSlots(r)), LEEF_VALUE), "\t"), LEEF_VALUE)
            == Some(PairsOf(Present(LeefSlots(r))))
       <==> LeefDurationReads(r)
  {
    LeefReads(r);
    LeefIsUnambiguous(Present(LeefSlots(r)));
  }

  /** Every field of the record stands under its key. */
  predicate LeefCarries(pairs: seq<Pair>, r: AuditRecord) {
    && Find(pairs, "devTime") == Some(r.devTime) && Find(pairs, "proto") == Some(Protocol(r))
    && Find(pairs, "usrName") == Truthy(r.user) && Find(pairs, "sessID") == Truthy(r.session)
    && Find(pairs, "action") == r.tool && Find(pairs, "duration") == r.duration && Find(pairs, "reason") == r.error
    && Find(pairs, "oldState") == r.fromState && Find(pairs, "newState") == r.toState
    && Find(pairs, "src") == Truthy(r.provider)
  }

  lemma LeefCarriesItsFields(r: AuditRecord)
    ensures LeefCarries(PairsOf(Present(LeefSlots(r))), r)
  {
    var slots := LeefSlots(r);
    forall j, k | 0 <= j < k < 10 ensures slots[j].key != slots[k].key {
      LeefSlotsAreSound(r, j);
      LeefSlotsAreSound(r, k);
    }
    forall i | 0 <= i < 10 ensures Find(PairsOf(Present(slots)), slots[i].key) == slots[i].value {
      PresentFinds(slots, i);
    }
    assert slots[0] == LeefStart(r)[0] && slots[1] == LeefStart(r)[1] && slots[2] == LeefStart(r)[2];
    assert slots[3] == LeefStart(r)[3] && slots[4] == LeefStart(r)[4];
    assert slots[5] == LeefEnd(r)[0] && slots[6] == LeefEnd(r)[1] && slots[7] == LeefEnd(r)[2];
    assert slots[8] == LeefEnd(r)[3] && slots[9] == LeefEnd(r)[4];
  }

  /** A duration that cannot be printed as it is is misread, or the line is not read at all. */
  lemma MisreadLeefDuration(r: AuditRecord)
    requires !LeefDurationReads(r)
    ensures
      var parsed := ParseAttributes(PrintAttrs(Present(LeefSlots(r)), '\t', LEEF_VALUE), LEEF_VALUE);
      parsed.Some? ==> Find(parsed.value, "duration") != r.duration
  {
    var slots, attrs, front := LeefSlots(r), Present(LeefSlots(r)), LeefSlots(r)[..5];
    var before := Present(front);
    LeefReads(r);
    LeefSlotsAreSound(r, 5);
    LeefDurationIsLegible(r);
    FollowedIsPresent(r);
    assert slots == front + slots[5..] && slots[5..][1..] == slots[6..];
    PresentConcat(front, slots[5..]);
    var n := |before|;
    assert attrs == before + ([Attr("duration", r.duration.value, true)] + Present(slots[6..]));
    assert attrs[..n] == before && attrs[n] == Attr("duration", r.duration.value, true);
    assert n == |attrs| - 1 <==> !Followed(r);
    LeefStartReads(r);
    ChainsProtect();
    FieldsUpTo(attrs, n, LEEF_VALUE);
    forall i | 0 <= i < 5 ensures front[i].key != "duration" {
      LeefSlotsAreSound(r, i);
      assert front[i] == slots[i] && slots[5].key == "duration";
    }
    AbsentKey(front, "duration");
    var parsed := ParseAttributes(PrintAttrs(attrs, '\t', LEEF_VALUE), LEEF_VALUE);
    if parsed.Some? { FindAt(parsed.value, n, "duration"); }
  }

  /** What stands before the duration is legible, whatever follows. */
  lemma LeefStartReads(r: AuditRecord)
    ensures AllLegibleFields(Present(LeefSlots(r)[..5]), true, LEEF_VALUE)
  {
    forall i | 0 <= i < 5 && LeefSlots(r)[..5][i].value.Some?
      ensures LegibleField(AttrOf(LeefSlots(r)[..5][i]), false, LEEF_VALUE)
    {
      LeefSlotsAreLegible(r, i, false);
    }
    PresentFollowed(LeefSlots(r)[..5], LEEF_VALUE);
  }

  lemma {:induction false} PresentFollowed(slots: seq<Slot>, chain: Chain)
    requires forall i | 0 <= i < |slots| && slots[i].value.Some? :: LegibleField(AttrOf(slots[i]), false, chain)
    ensures AllLegibleFields(Present(slots), true, chain)
  {
    if slots != [] {
      var rest := slots[1..];
      assert forall i | 0 <= i < |rest| :: rest[i] == slots[i + 1];
      PresentFollowed(rest, chain);
    }
  }

  /** LEEF's `_format_record`, behind its constant header. The attributes are read back, with every
      field of the record under its key, exactly when the duration can be printed as it is. */
  method FormatLeefRecord(r: AuditRecord, header: string) returns (line: string)
    ensures header + "\t" <= line
    ensures
      var parsed := ParseAttributes(line[|header| + 1..], LEEF_VALUE);
      parsed.Some? && LeefCarries(parsed.value, r) <==> LeefDurationReads(r)
  {
    var text := Join(Parts(Present(LeefSlots(r)), LEEF_VALUE), "\t");
    line := header + "\t" + text;
    assert line[|header| + 1..] == text;
    ChainsProtect();
    PartsPrint(Present(LeefSlots(r)), '\t', LEEF_VALUE);
    LeefRecordsReadBack(r);
    LeefCarriesItsFields(r);
    if !LeefDurationReads(r) { MisreadLeefDuration(r); }
  }

  // ---------------------------------------------------------------- RFC 5424

  function SdParam(key: string, value: Option<string>): seq<Pair> {
    if value.None? then [] else [Pair(key, value.value)]
  }

  function SdPairs(r: AuditRecord): seq<Pair> {
    SdParam("provider", r.provider) + SdParam("tool", r.tool) + SdParam("status", r.status)
    + SdParam("duration", r.duration) + SdParam("user", r.user) + SdParam("session", r.session)
    + SdParam("error", r.error) + SdParam("fromState", r.fromState) + SdParam("toState", r.toState)
  }

  lemma ParamReads(pairs: seq<Pair>, key: string, value: Option<string>)
    requires PlainKeys(pairs) && PlainKey(key)
    ensures PlainKeys(pairs + SdParam(key, value))
  {
  }

  lemma SdKeysArePlain()
    ensures PlainKey("provider") && PlainKey("tool") && PlainKey("status") && PlainKey("duration") && PlainKey("user")
    ensures PlainKey("session") && PlainKey("error") && PlainKey("fromState") && PlainKey("toState")
  {
  }

  lemma SdPairsArePlain(r: AuditRecord)
    ensures PlainKeys(SdPairs(r))
  {
    SdKeysArePlain();
    var pairs := SdParam("provider", r.provider);
    ParamReads([], "provider", r.provider);
    assert [] + pairs == pairs;
    ParamReads(pairs, "tool", r.tool);
    pairs := pairs + SdParam("tool", r.tool);
    ParamReads(pairs, "status", r.status);
    pairs := pairs + SdParam("status", r.status);
    ParamReads(pairs, "duration", r.duration);
    pairs := pairs + SdParam("duration", r.duration);
    ParamReads(pairs, "user", r.user);
    pairs := pairs + SdParam("user", r.user);
    ParamReads(pairs, "session", r.session);
    pairs := pairs + SdParam("session", r.session);
    ParamReads(pairs, "error", r.error);
    pairs := pairs + SdParam("error", r.error);
    ParamReads(pairs, "fromState", r.fromState);
    pairs := pairs + SdParam("fromState", r.fromState);
    ParamReads(pairs, "toState", r.toState);
  }

  /** The structured data of every record is read back, with the text behind it. */
  lemma SdRecordsReadBack(r: AuditRecord, message: string)
    ensures ParseParams(SdTail(SdPairs(r), SD_VALUE) + message, SD_VALUE) == Some((SdPairs(r), message))
  {
    SdPairsArePlain(r);
    StructuredDataIsUnambiguous(SdPairs(r), message);
  }
}
