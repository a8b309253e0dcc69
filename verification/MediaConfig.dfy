/** The media environment files: a strict parser, its printer, and the two-file migration. */
module MediaConfig {
  import opened Prelude

  type Env = map<string, string>

  const MAX_CONFIG_BYTES := 16 * 1024

  // ---- Text -------------------------------------------------------------------

  /** `str.isspace` of one character. */
  predicate IsSpace(c: char) {
    var n := c as int;
    0x09 <= n <= 0x0D || 0x1C <= n <= 0x20 || n in {0x85, 0xA0, 0x1680, 0x2028, 0x2029, 0x202F, 0x205F, 0x3000}
    || 0x2000 <= n <= 0x200A
  }

  /** The separators of `str.splitlines`; each is a space character too. */
  predicate IsLineBreak(c: char) {
    var n := c as int;
    0x0A <= n <= 0x0D || 0x1C <= n <= 0x1E || n in {0x85, 0x2028, 0x2029}
  }

  predicate NoSpace(s: string) {
    forall i :: 0 <= i < |s| ==> !IsSpace(s[i])
  }

  function FirstBreak(t: string): (n: nat)
    ensures n <= |t|
  {
    if t == "" || IsLineBreak(t[0]) then 0 else 1 + FirstBreak(t[1..])
  }

  /** `str.splitlines` on text without carriage returns. */
  function SplitLines(t: string): seq<string>
    decreases |t|
  {
    if t == "" then [] else
    var n := FirstBreak(t);
    if n == |t| then [t] else [t[..n]] + SplitLines(t[n + 1..])
  }

  function Utf8Length(t: string): nat {
    if t == "" then 0 else
    var n := t[0] as int;
    (if n < 0x80 then 1 else if n < 0x800 then 2 else if n < 0x10000 then 3 else 4) + Utf8Length(t[1..])
  }

  /** `^[A-Z][A-Z0-9_]*$` */
  predicate IsKey(k: string) {
    && k != "" && 'A' <= k[0] <= 'Z'
    && forall i :: 0 <= i < |k| ==> 'A' <= k[i] <= 'Z' || '0' <= k[i] <= '9' || k[i] == '_'
  }

  function FirstEquals(line: string): (n: nat)
    ensures n <= |line|
    ensures n < |line| ==> line[n] == '='
    ensures forall i :: 0 <= i < n ==> line[i] != '='
  {
    if line == "" || line[0] == '=' then 0 else 1 + FirstEquals(line[1..])
  }

  predicate LineOk(line: string) {
    var n := FirstEquals(line);
    line != "" && NoSpace(line) && n < |line| && IsKey(line[..n]) && n + 1 < |line|
  }

  function ParseLines(lines: seq<string>, values: Env): Result<Env, ()> {
    if lines == [] then Ok(values) else
    var line := lines[0];
    if !LineOk(line) then Err(()) else
    var n := FirstEquals(line);
    if line[..n] in values then Err(()) else ParseLines(lines[1..], values[line[..n] := line[n + 1..]])
  }

  /** The text part of `parse_trusted_environment`. */
  function Parse(text: string): Result<Env, ()> {
    if '\r' in text || text == "" || text[|text| - 1] != '\n' then Err(()) else ParseLines(SplitLines(text), map[])
  }

  method ParseEnvironment(text: string) returns (r: Result<Env, ()>)
    ensures r == Parse(text)
  {
    if '\r' in text || text == "" || text[|text| - 1] != '\n' {
      return Err(());
    }
    var lines := SplitLines(text);
    var values: Env := map[];
    for i := 0 to |lines|
      invariant ParseLines(lines, map[]) == ParseLines(lines[i..], values)
    {
      var line := lines[i];
      if !LineOk(line) {
        return Err(());
      }
      var n := FirstEquals(line);
      if line[..n] in values {
        return Err(());
      }
      values := values[line[..n] := line[n + 1..]];
      assert lines[i..][1..] == lines[i + 1..];
    }
    r := Ok(values);
  }

  /** `_serialize_environment` */
  function Serialize(values: Env, order: seq<string>): string
    requires forall k :: k in order ==> k in values
  {
    if order == [] then "" else order[0] + "=" + values[order[0]] + "\n" + Serialize(values, order[1..])
  }

  // ---- Round trip -----------------------------------------------------------------

  /** What `_validate_effective_values` asks, for keys the parser can read. */
  ghost predicate Clean(values: Env) {
    forall k :: k in values ==> IsKey(k) && values[k] != "" && NoSpace(values[k])
  }

  ghost predicate Distinct(order: seq<string>) {
    forall i, j :: 0 <= i < j < |order| ==> order[i] != order[j]
  }

  function Line(values: Env, k: string): string
    requires k in values
  {
    k + "=" + values[k]
  }

  function Lines(values: Env, order: seq<string>): seq<string>
    requires forall k :: k in order ==> k in values
  {
    seq(|order|, i requires 0 <= i < |order| => Line(values, order[i]))
  }

  lemma {:induction false} BreakAfter(line: string, rest: string)
    requires NoSpace(line)
    ensures FirstBreak(line + "\n" + rest) == |line|
  {
    var t := line + "\n" + rest;
    if line == "" {
      assert t[0] == '\n';
    } else {
      BreakAfter(line[1..], rest);
      assert t[1..] == line[1..] + "\n" + rest;
      assert t[0] == line[0] && !IsSpace(line[0]);
    }
  }

  lemma LineShape(values: Env, k: string)
    requires Clean(values) && k in values
    ensures var line := Line(values, k);
            LineOk(line) && FirstEquals(line) == |k| && line[..|k|] == k && line[|k| + 1..] == values[k]
    ensures '\r' !in Line(values, k)
  {
    var line := Line(values, k);
    var n := FirstEquals(line);
    assert line[|k|] == '=';
    assert forall i :: 0 <= i < |k| ==> line[i] == k[i] && k[i] != '=';
    forall i | 0 <= i < |line|
      ensures !IsSpace(line[i])
    {
      if i > |k| {
        assert line[i] == values[k][i - |k| - 1];
      } else if i < |k| {
        assert line[i] == k[i];
      }
    }
    assert IsSpace('\r');
  }

  lemma SplitOne(line: string, rest: string)
    requires NoSpace(line)
    ensures SplitLines(line + "\n" + rest) == [line] + SplitLines(rest)
  {
    var text := line + "\n" + rest;
    BreakAfter(line, rest);
    assert text[..|line|] == line && text[|line| + 1..] == rest;
  }

  /** Splitting what was printed gives back the printed lines. */
  lemma {:induction false} SplitSerialized(values: Env, order: seq<string>)
    requires Clean(values) && forall k :: k in order ==> k in values
    ensures SplitLines(Serialize(values, order)) == Lines(values, order)
  {
    if order != [] {
      var line, rest := Line(values, order[0]), Serialize(values, order[1..]);
      assert Serialize(values, order) == line + "\n" + rest;
      LineShape(values, order[0]);
      SplitOne(line, rest);
      SplitSerialized(values, order[1..]);
      assert Lines(values, order) == [line] + Lines(values, order[1..]);
    }
  }

  lemma {:induction false} PrintedText(values: Env, order: seq<string>)
    requires Clean(values) && forall k :: k in order ==> k in values
    ensures '\r' !in Serialize(values, order)
    ensures order != [] ==> var t := Serialize(values, order); t != "" && t[|t| - 1] == '\n'
  {
    if order != [] {
      var line, rest := Line(values, order[0]), Serialize(values, order[1..]);
      LineShape(values, order[0]);
      PrintedText(values, order[1..]);
      assert Serialize(values, order) == line + "\n" + rest;
    }
  }

  lemma {:induction false} ParsePrinted(values: Env, order: seq<string>, done: Env)
    requires Clean(values) && Distinct(order) && forall k :: k in order ==> k in values && k !in done
    requires forall k :: k in done ==> k in values && done[k] == values[k]
    requires forall k :: k in values ==> k in done || k in order
    ensures ParseLines(Lines(values, order), done) == Ok(values)
    decreases |order|
  {
    if order == [] {
      assert done == values;
    } else {
      var k := order[0];
      LineShape(values, k);
      assert Lines(values, order)[1..] == Lines(values, order[1..]);
      forall j | j in order[1..]
        ensures j != k && j in order
      {
        var i :| 0 <= i < |order[1..]| && order[1..][i] == j;
        assert order[i + 1] == j;
      }
      forall j | j in values
        ensures j in done[k := values[k]] || j in order[1..]
      {
        if j in order && j != k {
          var i :| 0 <= i < |order| && order[i] == j;
          assert order[1..][i - 1] == j;
        }
      }
      ParsePrinted(values, order[1..], done[k := values[k]]);
    }
  }

  /** Parsing what the printer wrote for a clean environment gives the environment back. */
  lemma RoundTrip(values: Env, order: seq<string>)
    requires Clean(values) && Distinct(order) && order != []
    requires forall k :: k in values <==> k in order
    ensures Parse(Serialize(values, order)) == Ok(values)
  {
    SplitSerialized(values, order);
    PrintedText(values, order);
    ParsePrinted(values, order, map[]);
  }

  lemma {:induction false} ParsedLinesClean(lines: seq<string>, values: Env)
    requires Clean(values) && ParseLines(lines, values).Ok?
    ensures Clean(ParseLines(lines, values).value)
    decreases |lines|
  {
    if lines != [] {
      var line := lines[0];
      var n := FirstEquals(line);
      var value := line[n + 1..];
      assert forall i :: 0 <= i < |value| ==> value[i] == line[n + 1 + i];
      ParsedLinesClean(lines[1..], values[line[..n] := value]);
    }
  }

  /** Whatever the parser accepts is clean. */
  lemma ParsedIsClean(text: string)
    requires Parse(text).Ok?
    ensures Clean(Parse(text).value)
  {
    ParsedLinesClean(SplitLines(text), map[]);
  }

  // ---- Migration ------------------------------------------------------------------

  const CAMERA := "MTX_PATHS_CAMERA_SOURCE"
  const CLEAR := "MTX_PATHS_CLEAR_SOURCE"
  const LEGACY := "MTX_PATHS_GATE_SOURCE"

  const STATIC_ORDER := [
    CAMERA, CLEAR, "MTX_WEBRTCLOCALUDPADDRESS", "MTX_WEBRTCLOCALTCPADDRESS",
    "MTX_WEBRTCADDITIONALHOSTS", "MTX_WEBRTCICESERVERS2_0_CLIENTONLY"]

  const TURN_ORDER := [
    "MTX_WEBRTCICESERVERS2_0_URL", "MTX_WEBRTCICESERVERS2_0_USERNAME", "MTX_WEBRTCICESERVERS2_0_PASSWORD"]

  function Keys(order: seq<string>): set<string> {
    set k | k in order
  }

  /**
   The checks of single values, which the migration only asks and never looks into:
   addresses and URLs of the static part, the TURN part, and `_migrate_clear_source_key`'s
   rewriting of the fluent source (None when it raises).
   */
  datatype Checks = Checks(staticOk: Env -> bool, turnOk: Env -> bool, deriveClear: string -> Option<string>)

  predicate CleanValues(values: Env) {
    forall k :: k in values ==> NoSpace(k) && values[k] != "" && NoSpace(values[k])
  }

  predicate ValidStatic(v: Env, c: Checks) {
    CleanValues(v) && v.Keys == Keys(STATIC_ORDER) && c.staticOk(v)
  }

  predicate ValidTurn(v: Env, c: Checks) {
    CleanValues(v) && v.Keys == Keys(TURN_ORDER) && c.turnOk(v)
  }

  function Part(v: Env, order: seq<string>): (p: Env)
    requires forall k :: k in order ==> k in v
    ensures p.Keys == Keys(order)
  {
    map k | k in Keys(order) :: v[k]
  }

  /** Two files; None is a missing one. */
  datatype Files = Files(gateway: Option<string>, turn: Option<string>)

  /** `_open_trusted_file` and `parse_trusted_environment`; ownership and modes are taken as right. */
  function Read(file: Option<string>): Result<Env, ()> {
    if file.None? || file.value == "" || Utf8Length(file.value) > MAX_CONFIG_BYTES then Err(()) else Parse(file.value)
  }

  predicate Writable(text: string) {
    text != "" && Utf8Length(text) <= MAX_CONFIG_BYTES
  }

  function RenameLegacy(v: Env): Result<Env, ()> {
    if LEGACY in v && CAMERA in v then Err(())
    else if LEGACY !in v then Ok(v)
    else Ok((v - {LEGACY})[CAMERA := v[LEGACY]])
  }

  function AddClear(v: Env, c: Checks): Result<Env, ()> {
    if CLEAR in v || CAMERA !in v then Ok(v)
    else match c.deriveClear(v[CAMERA])
         case None => Err(())
         case Some(clear) => Ok(v[CLEAR := clear])
  }

  /** What one run would do: the texts it writes, TURN file first, and whether it ends without an error. */
  datatype Plan = Plan(turn: Option<string>, gateway: Option<string>, ok: bool)

  const REFUSE := Plan(None, None, false)

  function PlanRun(f: Files, c: Checks): Plan {
    var raw := Read(f.gateway);
    if raw.Err? then REFUSE else
    var renamed := RenameLegacy(raw.value);
    if renamed.Err? then REFUSE else
    var full := AddClear(renamed.value, c);
    if full.Err? then REFUSE else
    if full.value.Keys == Keys(STATIC_ORDER) + Keys(TURN_ORDER) then PlanSplit(f, full.value, c)
    else if full.value.Keys == Keys(STATIC_ORDER) then PlanStatic(f, full.value, full.value != raw.value, c)
    else REFUSE
  }

  /** The legacy combined file. */
  function PlanSplit(f: Files, v: Env, c: Checks): Plan
    requires v.Keys == Keys(STATIC_ORDER) + Keys(TURN_ORDER)
  {
    var fixed, turn := Part(v, STATIC_ORDER), Part(v, TURN_ORDER);
    if !CleanValues(v) || !ValidStatic(fixed, c) || !ValidTurn(turn, c) then REFUSE else
    var text := Serialize(fixed, STATIC_ORDER);
    var write := if Writable(text) then Plan(None, Some(text), true) else REFUSE;
    if f.turn.Some? && Utf8Length(f.turn.value) > MAX_CONFIG_BYTES then REFUSE
    else if f.turn.Some? && f.turn.value != "" then
      var current := Parse(f.turn.value);
      if current.Ok? && ValidTurn(current.value, c) then write else REFUSE
    else
      var turnText := Serialize(turn, TURN_ORDER);
      if Writable(turnText) then write.(turn := Some(turnText)) else REFUSE
  }

  /** A file that holds only the static part. */
  function PlanStatic(f: Files, v: Env, migrated: bool, c: Checks): Plan
    requires v.Keys == Keys(STATIC_ORDER)
  {
    if !ValidStatic(v, c) then REFUSE else
    if f.turn.Some? && Utf8Length(f.turn.value) > MAX_CONFIG_BYTES then REFUSE else
    if f.turn.Some? && f.turn.value != "" && !(Parse(f.turn.value).Ok? && ValidTurn(Parse(f.turn.value).value, c))
    then REFUSE
    else if !migrated then Plan(None, None, true)
      else
        var text := Serialize(v, STATIC_ORDER);
        if Writable(text) then Plan(None, Some(text), true) else REFUSE
  }

  /** The files when a run stops after `writes` of its writes took effect. */
  function After(f: Files, p: Plan, writes: nat): Files {
    var afterTurn := if p.turn.Some? && writes > 0 then f.(turn := p.turn) else f;
    var needed := if p.turn.Some? then 2 else 1;
    if p.gateway.Some? && writes >= needed then afterTurn.(gateway := p.gateway) else afterTurn
  }

  function Finish(f: Files, c: Checks): Files {
    After(f, PlanRun(f, c), 2)
  }

  /** How a run ended; `Stopped` is a crash, or a write that took effect and still raised. */
  datatype Ending = Done | Refused | Stopped

  function Writes(p: Plan): nat {
    (if p.turn.Some? then 1 else 0) + (if p.gateway.Some? then 1 else 0)
  }

  /** The ending that a plan asks for when `writes` writes can happen. */
  function EndingOf(p: Plan, writes: nat): Ending {
    if writes < Writes(p) then Stopped else if p.ok then Done else Refused
  }

  class GatewayFiles {
    var gateway: Option<string>
    var turn: Option<string>

    function Contents(): Files
      reads this
    {
      Files(gateway, turn)
    }

    /** `migrate_gateway_environments`, stopped after `writes` writes. */
    method Migrate(c: Checks, writes: nat) returns (ending: Ending)
      modifies this
      ensures Contents() == After(old(Contents()), PlanRun(old(Contents()), c), writes)
      ensures ending == EndingOf(PlanRun(old(Contents()), c), writes)
    {
      var raw := Read(gateway);
      if raw.Err? { return Refused; }
      var renamed := RenameLegacy(raw.value);
      if renamed.Err? { return Refused; }
      var full := AddClear(renamed.value, c);
      if full.Err? { return Refused; }
      var v := full.value;
      if v.Keys == Keys(STATIC_ORDER) + Keys(TURN_ORDER) {
        ending := MigrateCombined(v, c, writes);
        return;
      }
      if v.Keys != Keys(STATIC_ORDER) || !ValidStatic(v, c) { return Refused; }
      if turn.Some? && Utf8Length(turn.value) > MAX_CONFIG_BYTES { return Refused; }
      if turn.Some? && turn.value != "" {
        var current := ParseEnvironment(turn.value);
        if current.Err? || !ValidTurn(current.value, c) { return Refused; }
      }
      if v != raw.value {
        var text := Serialize(v, STATIC_ORDER);
        if !Writable(text) { return Refused; }
        if writes == 0 { return Stopped; }
        gateway := Some(text);
      }
      ending := Done;
    }

    method MigrateCombined(v: Env, c: Checks, writes: nat) returns (ending: Ending)
      requires v.Keys == Keys(STATIC_ORDER) + Keys(TURN_ORDER)
      modifies this
      ensures Contents() == After(old(Contents()), PlanSplit(old(Contents()), v, c), writes)
      ensures ending == EndingOf(PlanSplit(old(Contents()), v, c), writes)
    {
      var fixed, given := Part(v, STATIC_ORDER), Part(v, TURN_ORDER);
      if !CleanValues(v) || !ValidStatic(fixed, c) || !ValidTurn(given, c) { return Refused; }
      if turn.Some? && Utf8Length(turn.value) > MAX_CONFIG_BYTES { return Refused; }
      var done := 0;
      if turn.Some? && turn.value != "" {
        var current := ParseEnvironment(turn.value);
        if current.Err? || !ValidTurn(current.value, c) { return Refused; }
      } else {
        var turnText := Serialize(given, TURN_ORDER);
        if !Writable(turnText) { return Refused; }
        if writes == 0 { return Stopped; }
        turn := Some(turnText);
        done := 1;
      }
      var text := Serialize(fixed, STATIC_ORDER);
      if !Writable(text) { return Refused; }
      if writes == done { return Stopped; }
      gateway := Some(text);
      ending := Done;
    }
  }

  lemma OrdersDistinct()
    ensures Distinct(STATIC_ORDER) && Distinct(TURN_ORDER)
    ensures forall k :: k in STATIC_ORDER ==> k !in TURN_ORDER && k != LEGACY
    ensures forall k :: k in TURN_ORDER ==> k != LEGACY
  {
    assert |CAMERA| == 23 && |CLEAR| == 22 && |LEGACY| == 21;
    assert |STATIC_ORDER[2]| == 25 && |STATIC_ORDER[3]| == 25 && STATIC_ORDER[2][15] == 'U'
           && STATIC_ORDER[3][15] == 'T';
    assert |STATIC_ORDER[4]| == 25 && STATIC_ORDER[4][10] == 'A' && STATIC_ORDER[2][10] == 'L'
           && STATIC_ORDER[3][10] == 'L';
    assert |STATIC_ORDER[5]| == 34;
    assert |TURN_ORDER[0]| == 27 && |TURN_ORDER[1]| == 32 && |TURN_ORDER[2]| == 32;
    assert TURN_ORDER[1][24] == 'U' && TURN_ORDER[2][24] == 'P';
  }

  lemma SourceKeys()
    ensures IsKey(CAMERA) && IsKey(CLEAR)
  {
  }

  lemma AddressKeys()
    ensures IsKey(STATIC_ORDER[2]) && IsKey(STATIC_ORDER[3])
  {
  }

  lemma HostKeys()
    ensures IsKey(STATIC_ORDER[4]) && IsKey(STATIC_ORDER[5])
  {
  }

  lemma TurnKeys()
    ensures IsKey(TURN_ORDER[0]) && IsKey(TURN_ORDER[1]) && IsKey(TURN_ORDER[2])
  {
  }

  lemma OrderKeys(k: string)
    requires k in STATIC_ORDER || k in TURN_ORDER
    ensures IsKey(k)
  {
    SourceKeys();
    AddressKeys();
    HostKeys();
    TurnKeys();
  }

  /** A part written by the migration reads back as it was. */
  lemma WrittenPartReadsBack(v: Env, order: seq<string>)
    requires CleanValues(v) && v.Keys == Keys(order) && order in {STATIC_ORDER, TURN_ORDER}
    requires Writable(Serialize(v, order))
    ensures Read(Some(Serialize(v, order))) == Ok(v)
  {
    OrdersDistinct();
    forall k | k in v
      ensures IsKey(k)
    {
      OrderKeys(k);
    }
    RoundTrip(v, order);
  }

  /** A file of the static part needs no key migration. */
  lemma StaticNeedsNoMigration(v: Env, c: Checks)
    requires v.Keys == Keys(STATIC_ORDER)
    ensures RenameLegacy(v) == Ok(v) && AddClear(v, c) == Ok(v)
    ensures v.Keys != Keys(STATIC_ORDER) + Keys(TURN_ORDER)
  {
    OrdersDistinct();
    assert CLEAR in STATIC_ORDER;
    assert TURN_ORDER[0] in Keys(TURN_ORDER);
  }

  /** The run over the combined file has nothing left to decide once the TURN file is written. */
  lemma SplitAfterTurnWrite(f: Files, v: Env, c: Checks)
    requires v.Keys == Keys(STATIC_ORDER) + Keys(TURN_ORDER)
    requires PlanSplit(f, v, c).turn.Some?
    ensures PlanSplit(f.(turn := PlanSplit(f, v, c).turn), v, c) == PlanSplit(f, v, c).(turn := None)
  {
    WrittenPartReadsBack(Part(v, TURN_ORDER), TURN_ORDER);
  }

  /** A TURN file the migration does not object to: none yet, or a valid one. */
  ghost predicate TurnAcceptable(turn: Option<string>, c: Checks) {
    turn.Some? && turn.value != "" ==>
      Utf8Length(turn.value) <= MAX_CONFIG_BYTES && Parse(turn.value).Ok? && ValidTurn(Parse(turn.value).value, c)
  }

  lemma StaticFileIsQuiet(g: Files, v: Env, c: Checks)
    requires Read(g.gateway) == Ok(v) && ValidStatic(v, c) && TurnAcceptable(g.turn, c)
    ensures PlanRun(g, c) == Plan(None, None, true)
  {
    StaticNeedsNoMigration(v, c);
    assert Utf8Length("") == 0;
  }

  lemma SplitLeavesStatic(f: Files, v: Env, c: Checks)
    requires v.Keys == Keys(STATIC_ORDER) + Keys(TURN_ORDER) && PlanSplit(f, v, c).ok
    ensures var g := After(f, PlanSplit(f, v, c), 2);
            Read(g.gateway) == Ok(Part(v, STATIC_ORDER)) && ValidStatic(Part(v, STATIC_ORDER), c)
            && TurnAcceptable(g.turn, c)
    ensures PlanSplit(f, v, c).turn.Some? ==> Read(After(f, PlanSplit(f, v, c), 2).turn) == Ok(Part(v, TURN_ORDER))
  {
    WrittenPartReadsBack(Part(v, STATIC_ORDER), STATIC_ORDER);
    if PlanSplit(f, v, c).turn.Some? {
      WrittenPartReadsBack(Part(v, TURN_ORDER), TURN_ORDER);
    }
  }

  lemma StaticLeavesStatic(f: Files, v: Env, migrated: bool, c: Checks)
    requires v.Keys == Keys(STATIC_ORDER) && PlanStatic(f, v, migrated, c).ok
    requires !migrated ==> Read(f.gateway) == Ok(v)
    ensures var g := After(f, PlanStatic(f, v, migrated, c), 2);
            Read(g.gateway) == Ok(v) && ValidStatic(v, c) && TurnAcceptable(g.turn, c)
  {
    if migrated {
      WrittenPartReadsBack(v, STATIC_ORDER);
    }
  }

  /** The environment a run works on: the file's, with both source keys migrated. */
  function Migrated(f: Files, c: Checks): Env
    requires PlanRun(f, c).ok
  {
    AddClear(RenameLegacy(Read(f.gateway).value).value, c).value
  }

  /** What one run wrote leaves the next run nothing to write. */
  lemma FinishedRunIsQuiet(f: Files, c: Checks)
    requires PlanRun(f, c).ok
    ensures PlanRun(Finish(f, c), c) == Plan(None, None, true)
  {
    var v, g := Migrated(f, c), Finish(f, c);
    if v.Keys == Keys(STATIC_ORDER) + Keys(TURN_ORDER) {
      SplitLeavesStatic(f, v, c);
      StaticFileIsQuiet(g, Part(v, STATIC_ORDER), c);
    } else {
      StaticLeavesStatic(f, v, v != Read(f.gateway).value, c);
      StaticFileIsQuiet(g, v, c);
    }
  }

  /**
   A run stopped after any of its writes and then repeated reaches exactly the files of an
   uninterrupted run, and ends without an error exactly when that one does.
   */
  lemma MigrationSurvivesACrash(f: Files, c: Checks, writes: nat)
    ensures Finish(After(f, PlanRun(f, c), writes), c) == Finish(f, c)
    ensures PlanRun(After(f, PlanRun(f, c), writes), c).ok == PlanRun(f, c).ok
  {
    var p := PlanRun(f, c);
    var g := After(f, p, writes);
    if g == Finish(f, c) && p.ok {
      FinishedRunIsQuiet(f, c);
    } else if g != f {
      var v := AddClear(RenameLegacy(Read(f.gateway).value).value, c).value;
      SplitAfterTurnWrite(f, v, c);
    }
  }

  /** A finished migration written again changes nothing: the second run performs no write. */
  lemma SecondRunWritesNothing(f: Files, c: Checks, writes: nat)
    requires PlanRun(f, c).ok
    ensures After(Finish(f, c), PlanRun(Finish(f, c), c), writes) == Finish(f, c)
  {
    FinishedRunIsQuiet(f, c);
  }

  /** The values survive: a split combined file holds, in two files, the values it held in one. */
  lemma SplitKeepsValues(f: Files, c: Checks)
    requires PlanRun(f, c).ok && PlanRun(f, c).turn.Some?
    ensures Read(Finish(f, c).gateway).Ok? && Read(Finish(f, c).turn).Ok?
    ensures Read(Finish(f, c).gateway).value + Read(Finish(f, c).turn).value == Migrated(f, c)
  {
    SplitLeavesStatic(f, Migrated(f, c), c);
  }
}
