/** What the media configuration code means: which text is accepted with which values, and what a migration writes. */
module MediaMeaning {
  import opened Prelude
  import opened MediaConfig

  // ---- The parser -------------------------------------------------------------------------

  /** The separators of `str.splitlines`, but for the carriage return. */
  const SEPARATORS := "\n\U{000B}\U{000C}\U{001C}\U{001D}\U{001E}\U{0085}\U{2028}\U{2029}"

  /** `lines`, each followed by its separator, but for a last one that the text does not end. */
  function Joined(lines: seq<string>, separators: string): string
    requires |separators| <= |lines|
    decreases |lines|
  {
    if lines == [] then ""
    else if separators == "" then lines[0] + Joined(lines[1..], "")
    else lines[0] + [separators[0]] + Joined(lines[1..], separators[1..])
  }

  ghost predicate IsSplit(t: string, lines: seq<string>, separators: string) {
    && (|separators| == |lines| || |separators| + 1 == |lines|) && Joined(lines, separators) == t
    && (forall i :: 0 <= i < |separators| ==> separators[i] in SEPARATORS)
    && (forall i, j :: 0 <= i < |lines| && 0 <= j < |lines[i]| ==> lines[i][j] !in SEPARATORS)
    && (|separators| < |lines| ==> lines[|lines| - 1] != "")
  }

  lemma SeparatorMeaning(c: char)
    requires c != '\r'
    ensures IsLineBreak(c) <==> c in SEPARATORS
  {
    assert SEPARATORS[0] == '\n' && SEPARATORS[1] == '\U{000B}' && SEPARATORS[2] == '\U{000C}';
    assert SEPARATORS[3] == '\U{001C}' && SEPARATORS[4] == '\U{001D}' && SEPARATORS[5] == '\U{001E}';
    assert SEPARATORS[6] == '\U{0085}' && SEPARATORS[7] == '\U{2028}' && SEPARATORS[8] == '\U{2029}';
  }

  lemma {:induction false} FirstBreakMeaning(t: string)
    ensures var n := FirstBreak(t);
            (n < |t| ==> IsLineBreak(t[n])) && forall i :: 0 <= i < n ==> !IsLineBreak(t[i])
  {
    if t != "" && !IsLineBreak(t[0]) {
      FirstBreakMeaning(t[1..]);
      assert forall i :: 0 < i < |t| ==> t[i] == t[1..][i - 1];
    }
  }

  /** A first line with its separator goes before a split of the rest. */
  lemma SplitLonger(t: string, n: nat, lines: seq<string>, separators: string)
    requires n < |t| && t[n] in SEPARATORS && (forall i :: 0 <= i < n ==> t[i] !in SEPARATORS)
    requires IsSplit(t[n + 1..], lines, separators)
    ensures IsSplit(t, [t[..n]] + lines, [t[n]] + separators)
  {
    var all := [t[..n]] + lines;
    assert all[1..] == lines && ([t[n]] + separators)[1..] == separators;
    assert t == t[..n] + [t[n]] + t[n + 1..];
  }

  /** The lines are the stretches between the separators, and no line holds one. */
  lemma {:induction false} SplitMeaning(t: string) returns (separators: string)
    requires '\r' !in t
    ensures IsSplit(t, SplitLines(t), separators)
    decreases |t|
  {
    separators := "";
    if t != "" {
      var n := FirstBreak(t);
      FirstSeparator(t);
      if n < |t| {
        var rest := SplitMeaning(t[n + 1..]);
        separators := [t[n]] + rest;
        SplitLonger(t, n, SplitLines(t[n + 1..]), rest);
      } else {
        assert [t][1..] == [];
      }
    }
  }

  lemma FirstSeparator(t: string)
    requires '\r' !in t
    ensures var n := FirstBreak(t);
            (n < |t| ==> t[n] in SEPARATORS) && forall i :: 0 <= i < n ==> t[i] !in SEPARATORS
  {
    FirstBreakMeaning(t);
    forall i | 0 <= i < |t|
      ensures IsLineBreak(t[i]) <==> t[i] in SEPARATORS
    {
      SeparatorMeaning(t[i]);
    }
  }

  /** The line is `key=value`, with a key of capitals, digits and underscores, and a value without white space. */
  ghost predicate Assigns(line: string, key: string, value: string) {
    line == key + "=" + value && IsKey(key) && value != "" && NoSpace(value)
  }

  ghost predicate IsAssignment(line: string) {
    exists key, value :: Assigns(line, key, value)
  }

  lemma LineMeaning(line: string)
    ensures LineOk(line) <==> IsAssignment(line)
    ensures LineOk(line) ==> Assigns(line, line[..FirstEquals(line)], line[FirstEquals(line) + 1..])
  {
    var n := FirstEquals(line);
    if LineOk(line) {
      var value := line[n + 1..];
      assert line == line[..n] + "=" + value;
      assert forall i :: 0 <= i < |value| ==> value[i] == line[n + 1 + i];
      assert Assigns(line, line[..n], value);
    }
    if IsAssignment(line) {
      var key, value :| Assigns(line, key, value);
      AssignmentIsLine(line, key, value);
    }
  }

  lemma AssignmentIsLine(line: string, key: string, value: string)
    requires Assigns(line, key, value)
    ensures LineOk(line) && key == line[..FirstEquals(line)] && value == line[FirstEquals(line) + 1..]
  {
    var values := map[key := value];
    LineShape(values, key);
    assert line == Line(values, key);
  }

  ghost predicate AssignsKey(line: string, key: string) {
    exists value :: Assigns(line, key, value)
  }

  /** Two lines assign the same key. */
  ghost predicate Repeated(lines: seq<string>, i: nat, j: nat, key: string) {
    i < j < |lines| && AssignsKey(lines[i], key) && AssignsKey(lines[j], key)
  }

  ghost predicate AllAssign(lines: seq<string>) {
    (forall i :: 0 <= i < |lines| ==> IsAssignment(lines[i]))
    && forall i: nat, j: nat, key :: !Repeated(lines, i, j, key)
  }

  /** The environment holds exactly what the lines assign. */
  ghost predicate HoldsAssigned(values: Env, lines: seq<string>) {
    && (forall i, key, value :: 0 <= i < |lines| && Assigns(lines[i], key, value) ==>
                                  key in values && values[key] == value)
    && (forall key :: key in values ==> exists i :: 0 <= i < |lines| && Assigns(lines[i], key, values[key]))
  }

  lemma KnownKeyRepeats(lines: seq<string>, n: nat, values: Env, key: string)
    requires n < |lines| && HoldsAssigned(values, lines[..n]) && AssignsKey(lines[n], key) && key in values
    ensures !AllAssign(lines)
  {
    var i :| 0 <= i < n && Assigns(lines[..n][i], key, values[key]);
    assert AssignsKey(lines[i], key);
    assert Repeated(lines, i, n, key);
  }

  /** One step of the parser. */
  lemma ParseStep(lines: seq<string>, n: nat, values: Env)
    requires n < |lines|
    ensures var line := lines[n];
            var key, value := line[..FirstEquals(line)], if LineOk(line) then line[FirstEquals(line) + 1..] else "";
            && (LineOk(line) <==> IsAssignment(line)) && (LineOk(line) ==> Assigns(line, key, value))
            && ParseLines(lines[n..], values) == if !LineOk(line) || key in values then Err(())
                                                 else ParseLines(lines[n + 1..], values[key := value])
  {
    assert lines[n..][0] == lines[n] && lines[n..][1..] == lines[n + 1..];
    LineMeaning(lines[n]);
  }

  lemma {:induction false} ParseLinesMeaning(lines: seq<string>, n: nat, values: Env)
    requires n <= |lines| && AllAssign(lines[..n]) && HoldsAssigned(values, lines[..n])
    ensures var r := ParseLines(lines[n..], values);
            (r.Ok? <==> AllAssign(lines)) && (r.Ok? ==> HoldsAssigned(r.value, lines))
    decreases |lines| - n
  {
    if n == |lines| {
      assert lines[..n] == lines;
    } else {
      var line := lines[n];
      ParseStep(lines, n, values);
      if LineOk(line) {
        var key, value := line[..FirstEquals(line)], line[FirstEquals(line) + 1..];
        if key in values {
          KnownKeyRepeats(lines, n, values, key);
        } else {
          NextAssignment(lines, n, values, key, value);
          ParseLinesMeaning(lines, n + 1, values[key := value]);
        }
      }
    }
  }

  lemma NextAssignment(lines: seq<string>, n: nat, values: Env, key: string, value: string)
    requires n < |lines| && AllAssign(lines[..n]) && HoldsAssigned(values, lines[..n])
    requires Assigns(lines[n], key, value) && key !in values
    ensures AllAssign(lines[..n + 1]) && HoldsAssigned(values[key := value], lines[..n + 1])
  {
    var before, after := lines[..n], lines[..n + 1];
    OnlyAssignment(lines[n], key, value);
    forall i, v | 0 <= i < n
      ensures !Assigns(lines[i], key, v)
    {
      assert before[i] == lines[i];
    }
    forall i: nat, j: nat, k
      ensures !Repeated(after, i, j, k)
    {
      assert !Repeated(before, i, j, k);
    }
    forall k | k in values
      ensures exists i :: 0 <= i < |after| && Assigns(after[i], k, values[k])
    {
      var i :| 0 <= i < |before| && Assigns(before[i], k, values[k]);
      assert Assigns(after[i], k, values[k]);
    }
    assert Assigns(after[n], key, value);
    assert forall i :: 0 <= i < n ==> after[i] == before[i];
  }

  lemma OnlyAssignment(line: string, key: string, value: string)
    requires Assigns(line, key, value)
    ensures forall k, v :: Assigns(line, k, v) ==> k == key && v == value
  {
    forall k, v | Assigns(line, k, v)
      ensures k == key && v == value
    {
      AssignmentIsLine(line, k, v);
      AssignmentIsLine(line, key, value);
    }
  }

  /**
   The parser accepts a text exactly when it ends with a newline, holds no carriage return, and each
   of its lines assigns a key of its own; the result holds exactly what the lines assign.
   */
  lemma ParseMeaning(text: string)
    ensures var r := Parse(text);
            && (r.Ok? <==>
                text != "" && text[|text| - 1] == '\n' && '\r' !in text && AllAssign(SplitLines(text)))
            && (r.Ok? ==> HoldsAssigned(r.value, SplitLines(text)))
  {
    var lines := SplitLines(text);
    assert lines[..0] == [] && lines[0..] == lines;
    ParseLinesMeaning(lines, 0, map[]);
  }

  // ---- The migration ------------------------------------------------------------------------

  /** The camera source of the file: under its own key, or under the legacy one. */
  function CameraSource(raw: Env): Option<string> {
    if "MTX_PATHS_CAMERA_SOURCE" in raw then Some(raw["MTX_PATHS_CAMERA_SOURCE"])
    else if "MTX_PATHS_GATE_SOURCE" in raw then Some(raw["MTX_PATHS_GATE_SOURCE"]) else None
  }

  /** The clear source of the file, or what is derived from the camera source. */
  function ClearSource(raw: Env, c: Checks): Option<string> {
    if "MTX_PATHS_CLEAR_SOURCE" in raw then Some(raw["MTX_PATHS_CLEAR_SOURCE"])
    else if CameraSource(raw).Some? then c.deriveClear(CameraSource(raw).value) else None
  }

  /** What the migration makes of the value under `key`. */
  function ValueOf(raw: Env, key: string, c: Checks): Option<string> {
    if key == "MTX_PATHS_CAMERA_SOURCE" then CameraSource(raw)
    else if key == "MTX_PATHS_CLEAR_SOURCE" then ClearSource(raw, c)
    else if key in raw then Some(raw[key]) else None
  }

  /**
   The file's keys are the static ones, the camera source perhaps under its legacy name and the
   clear one perhaps missing.
   */
  ghost predicate StaticKeys(raw: Env, combined: bool) {
    && !("MTX_PATHS_CAMERA_SOURCE" in raw && "MTX_PATHS_GATE_SOURCE" in raw)
    && (forall k :: k in raw ==> k in STATIC_ORDER || k == "MTX_PATHS_GATE_SOURCE" || (combined && k in TURN_ORDER))
    && (combined ==> forall k :: k in TURN_ORDER ==> k in raw)
  }

  /** The values of `order` after the migration. */
  ghost predicate HasValues(raw: Env, values: Env, order: seq<string>, c: Checks) {
    values.Keys == Keys(order) && forall k :: k in values ==> ValueOf(raw, k, c) == Some(values[k])
  }

  /** The environment after both source keys are migrated. */
  ghost predicate IsMigrated(raw: Env, full: Env, c: Checks) {
    && !("MTX_PATHS_CAMERA_SOURCE" in raw && "MTX_PATHS_GATE_SOURCE" in raw)
    && (forall k :: k in full ==> k != "MTX_PATHS_GATE_SOURCE" && ValueOf(raw, k, c) == Some(full[k]))
    && (forall k :: k !in full && k != "MTX_PATHS_GATE_SOURCE" ==> ValueOf(raw, k, c) == None)
    && ("MTX_PATHS_CLEAR_SOURCE" !in full ==> CameraSource(raw).None?)
  }

  lemma NamesDiffer()
    ensures CAMERA != CLEAR && CAMERA != LEGACY && CLEAR != LEGACY
  {
    assert |CAMERA| == 23 && |CLEAR| == 22 && |LEGACY| == 21;
  }

  lemma SourcesMigrated(raw: Env, c: Checks)
    ensures var renamed := RenameLegacy(raw);
            && (renamed.Err? <==> CAMERA in raw && LEGACY in raw)
            && (renamed.Ok? ==>
                  var full := AddClear(renamed.value, c);
                  && (full.Err? <==> CLEAR !in raw && CameraSource(raw).Some? && ClearSource(raw, c).None?)
                  && (full.Ok? ==> IsMigrated(raw, full.value, c)))
  {
    NamesDiffer();
  }

  predicate HasText(file: Option<string>) {
    file.Some? && file.value != ""
  }

  /**
   When a migration succeeds: `raw` is the file, `fixed` its six static values, `combined` tells that
   it also holds the TURN part.
   */
  ghost predicate Migratable(f: Files, c: Checks, raw: Env, fixed: Env, combined: bool) {
    && Read(f.gateway) == Ok(raw) && StaticKeys(raw, combined) && HasValues(raw, fixed, STATIC_ORDER, c)
    && ValidStatic(fixed, c) && TurnAcceptable(f.turn, c)
    && (combined || fixed != raw ==> Writable(Serialize(fixed, STATIC_ORDER)))
    && (combined ==>
          && ValidTurn(Part(raw, TURN_ORDER), c)
          && (!HasText(f.turn) ==> Writable(Serialize(Part(raw, TURN_ORDER), TURN_ORDER))))
  }

  /** The files that a migration leaves: the static values as they were or were derived, and the TURN part. */
  ghost predicate Splits(f: Files, g: Files, raw: Env, fixed: Env, combined: bool)
    requires combined ==> forall k :: k in TURN_ORDER ==> k in raw
  {
    && Read(g.gateway) == Ok(fixed)
    && (if combined && !HasText(f.turn) then Read(g.turn) == Ok(Part(raw, TURN_ORDER)) else g.turn == f.turn)
    && (!combined && fixed == raw ==> g == f)
  }

  lemma StaticIn(raw: Env, full: Env, fixed: Env, c: Checks, k: string)
    requires IsMigrated(raw, full, c) && HasValues(raw, fixed, STATIC_ORDER, c) && k in STATIC_ORDER
    ensures k in full && k in fixed && full[k] == fixed[k]
  {
    OrdersDistinct();
    assert k in fixed;
  }

  lemma TurnIn(raw: Env, full: Env, c: Checks, k: string)
    requires IsMigrated(raw, full, c) && k in raw && k in TURN_ORDER
    ensures k in full && full[k] == raw[k]
  {
    OrdersDistinct();
    SourceNames();
  }

  lemma NothingElse(raw: Env, full: Env, combined: bool, c: Checks, k: string)
    requires IsMigrated(raw, full, c) && StaticKeys(raw, combined) && k in full
    ensures k in STATIC_ORDER || (combined && k in TURN_ORDER)
  {
    SourceNames();
    assert ValueOf(raw, k, c).Some?;
  }

  /** The migrated environment has the keys that the file calls for. */
  lemma FullKeys(raw: Env, full: Env, fixed: Env, combined: bool, c: Checks)
    requires IsMigrated(raw, full, c) && StaticKeys(raw, combined) && HasValues(raw, fixed, STATIC_ORDER, c)
    ensures if combined then full.Keys == Keys(STATIC_ORDER) + Keys(TURN_ORDER) else full == fixed
    ensures full.Keys >= Keys(STATIC_ORDER) && Part(full, STATIC_ORDER) == fixed
    ensures combined ==> Part(full, TURN_ORDER) == Part(raw, TURN_ORDER)
  {
    forall k | k in STATIC_ORDER
      ensures k in full && k in fixed && full[k] == fixed[k]
    {
      StaticIn(raw, full, fixed, c, k);
    }
    forall k | combined && k in TURN_ORDER
      ensures k in full && full[k] == raw[k]
    {
      TurnIn(raw, full, c, k);
    }
    forall k | k in full
      ensures k in STATIC_ORDER || (combined && k in TURN_ORDER)
    {
      NothingElse(raw, full, combined, c, k);
    }
    PartsAre(raw, full, fixed, combined);
  }

  lemma PartsAre(raw: Env, full: Env, fixed: Env, combined: bool)
    requires fixed.Keys == Keys(STATIC_ORDER) && forall k :: k in STATIC_ORDER ==> k in full && full[k] == fixed[k]
    requires combined ==> forall k :: k in TURN_ORDER ==> k in raw && k in full && full[k] == raw[k]
    requires forall k :: k in full ==> k in STATIC_ORDER || (combined && k in TURN_ORDER)
    ensures if combined then full.Keys == Keys(STATIC_ORDER) + Keys(TURN_ORDER) else full == fixed
    ensures full.Keys >= Keys(STATIC_ORDER) && Part(full, STATIC_ORDER) == fixed
    ensures combined ==> Part(full, TURN_ORDER) == Part(raw, TURN_ORDER)
  {
  }

  lemma SourceNames()
    ensures CAMERA in STATIC_ORDER && CLEAR in STATIC_ORDER
  {
    assert STATIC_ORDER[0] == CAMERA && STATIC_ORDER[1] == CLEAR;
  }

  /** And conversely. */
  lemma KeysOfFull(raw: Env, full: Env, combined: bool, c: Checks)
    requires IsMigrated(raw, full, c)
    requires full.Keys == if combined then Keys(STATIC_ORDER) + Keys(TURN_ORDER) else Keys(STATIC_ORDER)
    ensures StaticKeys(raw, combined) && HasValues(raw, Part(full, STATIC_ORDER), STATIC_ORDER, c)
  {
    NamesDiffer();
    OrdersDistinct();
    SourceNames();
    forall k | k in raw && k != LEGACY
      ensures k in full.Keys
    {
      assert ValueOf(raw, k, c).Some?;
    }
    forall k | combined && k in TURN_ORDER
      ensures k in raw
    {
      assert k in full && ValueOf(raw, k, c).Some?;
    }
  }

  lemma CombinedPlan(f: Files, c: Checks, full: Env)
    requires full.Keys == Keys(STATIC_ORDER) + Keys(TURN_ORDER)
    ensures var fixed, given := Part(full, STATIC_ORDER), Part(full, TURN_ORDER);
            PlanSplit(f, full, c).ok <==>
            && ValidStatic(fixed, c) && ValidTurn(given, c) && TurnAcceptable(f.turn, c)
            && Writable(Serialize(fixed, STATIC_ORDER))
            && (!HasText(f.turn) ==> Writable(Serialize(given, TURN_ORDER)))
    ensures PlanSplit(f, full, c).ok ==> (PlanSplit(f, full, c).turn.Some? <==> !HasText(f.turn))
  {
    var fixed, given := Part(full, STATIC_ORDER), Part(full, TURN_ORDER);
    assert Utf8Length("") == 0;
    if CleanValues(fixed) && CleanValues(given) {
      forall k | k in full
        ensures NoSpace(k) && full[k] != "" && NoSpace(full[k])
      {
        assert k in fixed || k in given;
      }
    }
  }

  lemma StaticPlan(f: Files, c: Checks, full: Env, migrated: bool)
    requires full.Keys == Keys(STATIC_ORDER)
    ensures PlanStatic(f, full, migrated, c).ok <==>
            && ValidStatic(full, c) && TurnAcceptable(f.turn, c)
            && (migrated ==> Writable(Serialize(full, STATIC_ORDER)))
    ensures PlanStatic(f, full, migrated, c).turn.None?
    ensures PlanStatic(f, full, migrated, c).ok ==> (PlanStatic(f, full, migrated, c).gateway.Some? <==> migrated)
  {
    assert Utf8Length("") == 0;
  }

  lemma MigratedEnvironment(f: Files, c: Checks, raw: Env, fixed: Env, combined: bool) returns (full: Env)
    requires Migratable(f, c, raw, fixed, combined)
    ensures RenameLegacy(raw).Ok? && AddClear(RenameLegacy(raw).value, c) == Ok(full)
    ensures if combined
            then && full.Keys == Keys(STATIC_ORDER) + Keys(TURN_ORDER) && Part(full, STATIC_ORDER) == fixed
                 && Part(full, TURN_ORDER) == Part(raw, TURN_ORDER)
            else full == fixed
  {
    SourcesMigrated(raw, c);
    SourceNames();
    assert CLEAR in fixed && ValueOf(raw, CLEAR, c) == Some(fixed[CLEAR]);
    full := AddClear(RenameLegacy(raw).value, c).value;
    FullKeys(raw, full, fixed, combined, c);
  }

  lemma CombinedMigrates(f: Files, c: Checks, raw: Env, fixed: Env)
    requires Migratable(f, c, raw, fixed, true)
    ensures PlanRun(f, c).ok && Splits(f, Finish(f, c), raw, fixed, true)
  {
    var full := MigratedEnvironment(f, c, raw, fixed, true);
    CombinedPlan(f, c, full);
    SplitLeavesStatic(f, full, c);
  }

  lemma StaticMigrates(f: Files, c: Checks, raw: Env, fixed: Env)
    requires Migratable(f, c, raw, fixed, false)
    ensures PlanRun(f, c).ok && Splits(f, Finish(f, c), raw, fixed, false)
  {
    var full := MigratedEnvironment(f, c, raw, fixed, false);
    StaticNeedsNoMigration(fixed, c);
    StaticPlan(f, c, fixed, fixed != raw);
    StaticLeavesStatic(f, fixed, fixed != raw, c);
  }

  /** What the migration plans for a file that it can migrate. */
  lemma MigratablePlans(f: Files, c: Checks, raw: Env, fixed: Env, combined: bool)
    requires Migratable(f, c, raw, fixed, combined)
    ensures PlanRun(f, c).ok && Splits(f, Finish(f, c), raw, fixed, combined)
  {
    if combined {
      CombinedMigrates(f, c, raw, fixed);
    } else {
      StaticMigrates(f, c, raw, fixed);
    }
  }

  lemma PlannedIsMigratable(f: Files, c: Checks) returns (raw: Env, fixed: Env, combined: bool)
    requires PlanRun(f, c).ok
    ensures Migratable(f, c, raw, fixed, combined)
  {
    raw := Read(f.gateway).value;
    SourcesMigrated(raw, c);
    var full := AddClear(RenameLegacy(raw).value, c).value;
    combined := full.Keys == Keys(STATIC_ORDER) + Keys(TURN_ORDER);
    KeysOfFull(raw, full, combined, c);
    fixed := Part(full, STATIC_ORDER);
    FullKeys(raw, full, fixed, combined, c);
    if combined {
      CombinedPlan(f, c, full);
    } else {
      StaticPlan(f, c, full, full != raw);
    }
  }

  /** A run ends without an error exactly for the files that can be migrated. */
  lemma MigratesExactly(f: Files, c: Checks)
    ensures PlanRun(f, c).ok <==> exists raw, fixed, combined :: Migratable(f, c, raw, fixed, combined)
  {
    if PlanRun(f, c).ok {
      var raw, fixed, combined := PlannedIsMigratable(f, c);
    }
    forall raw, fixed, combined | Migratable(f, c, raw, fixed, combined)
      ensures PlanRun(f, c).ok
    {
      MigratablePlans(f, c, raw, fixed, combined);
    }
  }

  /**
   What a successful run leaves: the gateway file holds the six static values, the camera source as
   it was under its own or its legacy key, the clear source as it was or exactly as it is derived,
   the rest as it was; a TURN part of a combined file is in the TURN file unless that one had one.
   */
  lemma MigrationMeaning(f: Files, c: Checks)
    requires PlanRun(f, c).ok
    ensures exists raw, fixed, combined ::
              Migratable(f, c, raw, fixed, combined) && Splits(f, Finish(f, c), raw, fixed, combined)
  {
    var raw, fixed, combined := PlannedIsMigratable(f, c);
    MigratablePlans(f, c, raw, fixed, combined);
  }
}
