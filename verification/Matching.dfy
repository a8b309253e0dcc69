/** Exact-first, fail-closed plate matching, against a rule that names no loop. */
module Matching {
  import opened Prelude

  datatype PlateObservation = PlateObservation(plate: Option<string>, confidence: real)

  datatype Reason = ExactMatch | TwoFrameOcrConfusion | AmbiguousFuzzyMatch | NoMatch

  datatype MatchDecision = MatchDecision(allowed: bool, reason: Reason, authorisedPlate: Option<string>,
                                         observedPlate: Option<string>, confidence: real)

  const MIN_EXACT_CONFIDENCE := 0.90
  const MIN_FUZZY_CONFIDENCE := 0.90

  const CONFUSION_GROUPS: seq<set<char>> :=
    [{'0', 'O'}, {'1', 'I', 'L'}, {'2', 'Z'}, {'5', 'S'}, {'8', 'B'}]

  predicate IsAsciiAlnum(c: char) {
    '0' <= c <= '9' || 'A' <= c <= 'Z' || 'a' <= c <= 'z'
  }

  /** The characters outside ASCII whose upper case holds an ASCII letter, with those letters. */
  const TO_ASCII: map<char, string> :=
    map[
      '\U{00DF}' := "SS", '\U{0131}' := "I", '\U{0149}' := "N", '\U{017F}' := "S", '\U{01F0}' := "J",
      '\U{1E96}' := "H", '\U{1E97}' := "T", '\U{1E98}' := "W", '\U{1E99}' := "Y", '\U{1E9A}' := "A",
      '\U{FB00}' := "FF", '\U{FB01}' := "FI", '\U{FB02}' := "FL", '\U{FB03}' := "FFI", '\U{FB04}' := "FFL",
      '\U{FB05}' := "ST", '\U{FB06}' := "ST"]

  function UpperChar(c: char): string {
    if IsLower(c) then ['A' + (c - 'a')] else if c > '\U{007F}' && c in TO_ASCII then TO_ASCII[c] else [c]
  }

  /** `str.upper`, as far as its ASCII letters and digits go. */
  function Upper(s: string): string {
    if s == "" then "" else UpperChar(s[0]) + Upper(s[1..])
  }

  /** `normalise_plate` */
  function NormalisePlate(value: string): (plate: string)
    ensures forall c :: c in plate ==> IsAsciiAlnum(c)
  {
    Filter(Upper(value), IsAsciiAlnum)
  }

  predicate IsLower(c: char) {
    'a' <= c <= 'z'
  }

  lemma {:induction false} NoLowerInUpper(s: string)
    ensures forall c :: c in Upper(s) ==> !IsLower(c)
  {
    if s != "" {
      NoLowerInUpper(s[1..]);
    }
  }

  lemma {:induction false} UpperOfUpper(s: string)
    requires forall c :: c in s ==> IsAsciiAlnum(c) && !IsLower(c)
    ensures Upper(s) == s
  {
    if s != "" {
      assert s[0] in s;
      UpperOfUpper(s[1..]);
      assert [s[0]] + s[1..] == s;
    }
  }

  /** Normalising twice is normalising once. */
  lemma NormaliseTwice(value: string)
    ensures NormalisePlate(NormalisePlate(value)) == NormalisePlate(value)
  {
    var plate := NormalisePlate(value);
    NoLowerInUpper(value);
    UpperOfUpper(plate);
    FilterAll(plate, IsAsciiAlnum);
  }

  // ---- What normalising computes ---------------------------------------------

  lemma {:induction false} UpperAppend(a: string, b: string)
    ensures Upper(a + b) == Upper(a) + Upper(b)
  {
    if a == "" {
      assert a + b == b;
    } else {
      assert (a + b)[1..] == a[1..] + b;
      UpperAppend(a[1..], b);
      assert UpperChar(a[0]) + (Upper(a[1..]) + Upper(b)) == UpperChar(a[0]) + Upper(a[1..]) + Upper(b);
    }
  }

  /** Normalising goes character by character: no character's form depends on its neighbours or its place. */
  lemma NormaliseAppend(a: string, b: string)
    ensures NormalisePlate(a + b) == NormalisePlate(a) + NormalisePlate(b)
  {
    UpperAppend(a, b);
    FilterAppend(Upper(a), Upper(b), IsAsciiAlnum);
  }

  predicate IsNormalChar(c: char) {
    '0' <= c <= '9' || 'A' <= c <= 'Z'
  }

  /** The form of one character; all but letters, digits and seventeen others vanish. */
  lemma NormaliseChar(c: char)
    ensures IsNormalChar(c) ==> NormalisePlate([c]) == [c]
    ensures 'a' <= c <= 'z' ==> NormalisePlate([c]) == [c - ' ']
    ensures !IsNormalChar(c) && !('a' <= c <= 'z') ==>
              NormalisePlate([c]) ==
              match c
              case '\U{00DF}' => "SS"
              case '\U{0131}' => "I"
              case '\U{0149}' => "N"
              case '\U{017F}' => "S"
              case '\U{01F0}' => "J"
              case '\U{1E96}' => "H"
              case '\U{1E97}' => "T"
              case '\U{1E98}' => "W"
              case '\U{1E99}' => "Y"
              case '\U{1E9A}' => "A"
              case '\U{FB00}' => "FF"
              case '\U{FB01}' => "FI"
              case '\U{FB02}' => "FL"
              case '\U{FB03}' => "FFI"
              case '\U{FB04}' => "FFL"
              case '\U{FB05}' => "ST"
              case '\U{FB06}' => "ST"
              case _ => ""
  {
    assert Upper([c]) == UpperChar(c);
  }

  /** Text of digits and capitals is its own form, so distinct plates of this kind stay distinct. */
  lemma {:induction false} NormalStays(s: string)
    requires forall c :: c in s ==> IsNormalChar(c)
    ensures NormalisePlate(s) == s
  {
    if s != "" {
      NormalStays(s[1..]);
      NormaliseChar(s[0]);
      NormaliseAppend([s[0]], s[1..]);
      assert [s[0]] + s[1..] == s;
    }
  }

  // ---- One known confusion --------------------------------------------------

  function Differences(a: string, b: string): (d: seq<(char, char)>)
    requires |a| == |b|
  {
    if a == "" then [] else
    (if a[0] != b[0] then [(a[0], b[0])] else []) + Differences(a[1..], b[1..])
  }

  predicate SameGroup(c: char, d: char) {
    exists g :: 0 <= g < |CONFUSION_GROUPS| && {c, d} <= CONFUSION_GROUPS[g]
  }

  /** `_is_one_known_confusion` */
  predicate IsOneKnownConfusion(observed: string, authorised: string) {
    && |observed| == |authorised|
    && var d := Differences(observed, authorised);
    |d| == 1 && SameGroup(d[0].0, d[0].1)
  }

  /** The two plates differ at one position, by characters OCR is known to confuse. */
  ghost predicate OneConfusionAt(a: string, b: string, k: nat) {
    k < |a| && |a| == |b| && a[k] != b[k] && SameGroup(a[k], b[k]) && b == a[k := b[k]]
  }

  lemma {:induction false} DifferencesNone(a: string, b: string)
    requires |a| == |b|
    ensures Differences(a, b) == [] <==> a == b
  {
    if a != "" {
      DifferencesNone(a[1..], b[1..]);
      assert a == [a[0]] + a[1..] && b == [b[0]] + b[1..];
    }
  }

  lemma {:induction false} DifferencesOne(a: string, b: string) returns (k: nat)
    requires |a| == |b| && |Differences(a, b)| == 1
    ensures k < |a| && a[k] != b[k] && b == a[k := b[k]] && Differences(a, b)[0] == (a[k], b[k])
  {
    if a[0] != b[0] {
      k := 0;
      DifferencesNone(a[1..], b[1..]);
      assert b == [b[0]] + b[1..];
    } else {
      k := DifferencesOne(a[1..], b[1..]);
      k := k + 1;
      assert b == [b[0]] + b[1..];
      assert a[k := b[k]] == [a[0]] + a[1..][k - 1 := b[k]];
    }
  }

  lemma {:induction false} DifferencesOfOne(a: string, b: string, k: nat)
    requires k < |a| && |a| == |b| && a[k] != b[k] && b == a[k := b[k]]
    ensures Differences(a, b) == [(a[k], b[k])]
  {
    if k == 0 {
      assert a[1..] == b[1..];
      DifferencesNone(a[1..], b[1..]);
    } else {
      assert b[1..] == a[1..][k - 1 := b[k]];
      DifferencesOfOne(a[1..], b[1..], k - 1);
    }
  }

  /** The comprehension finds exactly the single-substitution neighbours. */
  lemma ConfusionMeaning(a: string, b: string)
    ensures IsOneKnownConfusion(a, b) <==> exists k: nat :: OneConfusionAt(a, b, k)
  {
    if IsOneKnownConfusion(a, b) {
      var k := DifferencesOne(a, b);
      assert OneConfusionAt(a, b, k);
    }
    if k: nat :| OneConfusionAt(a, b, k) {
      DifferencesOfOne(a, b, k);
    }
  }

  /** Being one confusion apart does not depend on which plate was observed. */
  lemma ConfusionSymmetric(a: string, b: string)
    ensures IsOneKnownConfusion(a, b) ==> IsOneKnownConfusion(b, a) && a != b
  {
    if IsOneKnownConfusion(a, b) {
      var k := DifferencesOne(a, b);
      assert a == b[k := a[k]];
      DifferencesOfOne(b, a, k);
      assert {a[k], b[k]} == {b[k], a[k]};
    }
  }

  // ---- The rule -------------------------------------------------------------

  /** The authorised plates as the decision sees them: normalised, without the empty one. */
  function AuthorisedSet(authorised: seq<string>): set<string> {
    (set i | 0 <= i < |authorised| :: NormalisePlate(authorised[i])) - {""}
  }

  /** One observation as the rule sees it; a frame without a plate has the empty plate. */
  datatype Frame = Frame(plate: string, confidence: real)

  /** `normalised_observations` */
  function Frames(obs: seq<PlateObservation>): (frames: seq<Frame>)
    ensures |frames| == |obs|
    ensures forall i :: 0 <= i < |obs| ==> frames[i].confidence == obs[i].confidence
    ensures forall i :: 0 <= i < |obs| ==>
                          frames[i].plate == if obs[i].plate.Some? then
                            (if obs[i].plate.value == "" then "" else NormalisePlate(obs[i].plate.value)) else ""
  {
    seq(|obs|, i requires 0 <= i < |obs| =>
      Frame(if obs[i].plate.None? || obs[i].plate.value == "" then "" else NormalisePlate(obs[i].plate.value),
            obs[i].confidence))
  }

  /** Frame `i` shows plate `p` with enough confidence to count. */
  ghost predicate Shows(frames: seq<Frame>, i: nat, p: string) {
    i < |frames| && frames[i].plate == p && p != "" && frames[i].confidence >= MIN_EXACT_CONFIDENCE
  }

  ghost predicate ExactFrame(frames: seq<Frame>, auth: set<string>, i: nat, p: string) {
    Shows(frames, i, p) && p in auth
  }

  function Neighbours(p: string, auth: set<string>): set<string> {
    set q | q in auth && IsOneKnownConfusion(p, q)
  }

  /** Frame `i` is the first frame of a plate that two frames show and that has an authorised neighbour. */
  ghost predicate FuzzyFrame(frames: seq<Frame>, auth: set<string>, i: nat, p: string) {
    && Shows(frames, i, p)
    && (exists j: nat :: i < j && Shows(frames, j, p))
    && Neighbours(p, auth) != {}
  }

  ghost predicate BestConfidence(frames: seq<Frame>, p: string, c: real) {
    && (exists i: nat :: Shows(frames, i, p) && frames[i].confidence == c)
    && (forall i: nat :: Shows(frames, i, p) ==> frames[i].confidence <= c)
  }

  ghost predicate ExactRule(frames: seq<Frame>, auth: set<string>, d: MatchDecision) {
    exists i: nat, p: string ::
      && ExactFrame(frames, auth, i, p)
      && (forall j: nat, q: string :: j < i ==> !ExactFrame(frames, auth, j, q))
      && d == MatchDecision(true, ExactMatch, Some(p), Some(p), frames[i].confidence)
  }

  ghost predicate FuzzyRule(frames: seq<Frame>, auth: set<string>, d: MatchDecision) {
    exists i: nat, p: string ::
      && FuzzyFrame(frames, auth, i, p)
      && (forall j: nat, q: string :: j < i ==> !FuzzyFrame(frames, auth, j, q))
      && BestConfidence(frames, p, d.confidence)
      && d.observedPlate == Some(p)
      && d.allowed == (|Neighbours(p, auth)| == 1)
      && if d.allowed
         then d.reason == TwoFrameOcrConfusion && d.authorisedPlate.Some?
              && Neighbours(p, auth) == {d.authorisedPlate.value}
         else d.reason == AmbiguousFuzzyMatch && d.authorisedPlate == None
  }

  ghost predicate SomeExact(frames: seq<Frame>, auth: set<string>) {
    exists i: nat, p: string :: ExactFrame(frames, auth, i, p)
  }

  ghost predicate SomeFuzzy(frames: seq<Frame>, auth: set<string>) {
    exists i: nat, p: string :: FuzzyFrame(frames, auth, i, p)
  }

  /** The whole decision, as a rule about frames and plates. */
  ghost predicate Rule(frames: seq<Frame>, auth: set<string>, d: MatchDecision) {
    if SomeExact(frames, auth) then ExactRule(frames, auth, d)
    else if SomeFuzzy(frames, auth) then FuzzyRule(frames, auth, d)
    else d == MatchDecision(false, NoMatch, None, None, 0.0)
  }

  // ---- The code -------------------------------------------------------------

  predicate Qualifies(f: Frame, least: real) {
    f.plate != "" && f.confidence >= least
  }

  method FrameCount(frames: seq<Frame>, p: string) returns (count: nat)
    requires p != ""
    ensures count >= 2 <==> exists i: nat, j: nat :: i < j && Shows(frames, i, p) && Shows(frames, j, p)
  {
    count := 0;
    ghost var first := 0;
    ghost var second := 0;
    for n := 0 to |frames|
      invariant count == 0 ==> forall i: nat :: i < n ==> !Shows(frames, i, p)
      invariant count == 1 ==> first < n && forall i: nat :: i < n && Shows(frames, i, p) ==> i == first
      invariant count >= 2 ==> first < second < n && Shows(frames, first, p) && Shows(frames, second, p)
      invariant count >= 1 ==> Shows(frames, first, p)
    {
      if frames[n].plate == p && frames[n].confidence >= MIN_FUZZY_CONFIDENCE {
        if count == 0 { first := n; } else { second := n; }
        count := count + 1;
      }
    }
  }

  /** `decide_access` */
  method DecideAccess(obs: seq<PlateObservation>, authorised: seq<string>)
    returns (d: MatchDecision)
    ensures Rule(Frames(obs), AuthorisedSet(authorised), d)
  {
    d := DecideFrames(Frames(obs), AuthorisedSet(authorised));
  }

  ghost predicate NoExactBefore(frames: seq<Frame>, auth: set<string>, n: nat) {
    forall i: nat, p: string :: i < n ==> !ExactFrame(frames, auth, i, p)
  }

  method DecideFrames(frames: seq<Frame>, auth: set<string>) returns (d: MatchDecision)
    ensures Rule(frames, auth, d)
  {
    for n := 0 to |frames|
      invariant NoExactBefore(frames, auth, n)
    {
      var f := frames[n];
      if Qualifies(f, MIN_EXACT_CONFIDENCE) && f.plate in auth {
        d := MatchDecision(true, ExactMatch, Some(f.plate), Some(f.plate), f.confidence);
        FirstExactDecides(frames, auth, n, d);
        return;
      }
      assert NoExactBefore(frames, auth, n + 1);
    }
    NoExactAtAll(frames, auth);
    d := DecideFuzzy(frames, auth);
  }

  lemma NoExactAtAll(frames: seq<Frame>, auth: set<string>)
    requires NoExactBefore(frames, auth, |frames|)
    ensures !SomeExact(frames, auth)
  {
  }

  lemma FirstExactDecides(frames: seq<Frame>, auth: set<string>, n: nat, d: MatchDecision)
    requires n < |frames| && NoExactBefore(frames, auth, n) && ExactFrame(frames, auth, n, frames[n].plate)
    requires d == MatchDecision(true, ExactMatch, Some(frames[n].plate), Some(frames[n].plate), frames[n].confidence)
    ensures Rule(frames, auth, d)
  {
  }

  method DecideFuzzy(frames: seq<Frame>, auth: set<string>)
    returns (d: MatchDecision)
    requires !SomeExact(frames, auth)
    ensures Rule(frames, auth, d)
  {
    var order, at, candidates, confidences := CollectCandidates(frames, auth);
    for n := 0 to |order|
      invariant forall k :: 0 <= k < n ==> !Decides(frames, auth, order[k])
    {
      var p := order[n];
      assert Candidate(frames, auth, candidates, confidences, p);
      var count := FrameCount(frames, p);
      if count >= 2 && candidates[p] != {} {
        FirstDecider(frames, auth, order, at, n);
        if |candidates[p]| == 1 {
          var q :| q in candidates[p];
          d := MatchDecision(true, TwoFrameOcrConfusion, Some(q), Some(p), confidences[p]);
          Singleton(candidates[p], q);
        } else {
          d := MatchDecision(false, AmbiguousFuzzyMatch, None, Some(p), confidences[p]);
        }
        FuzzyRuleHolds(frames, auth, at[n], p, d);
        return;
      }
    }
    NoDecider(frames, auth, order, at);
    d := MatchDecision(false, NoMatch, None, None, 0.0);
  }

  lemma FuzzyRuleHolds(frames: seq<Frame>, auth: set<string>, i: nat, p: string, d: MatchDecision)
    requires FuzzyFrame(frames, auth, i, p)
    requires forall j: nat, q: string :: j < i ==> !FuzzyFrame(frames, auth, j, q)
    requires BestConfidence(frames, p, d.confidence)
    requires d.observedPlate == Some(p) && d.allowed == (|Neighbours(p, auth)| == 1)
    requires if d.allowed
             then d.reason == TwoFrameOcrConfusion && d.authorisedPlate.Some?
                  && Neighbours(p, auth) == {d.authorisedPlate.value}
             else d.reason == AmbiguousFuzzyMatch && d.authorisedPlate == None
    ensures SomeFuzzy(frames, auth) && FuzzyRule(frames, auth, d)
  {
  }

  lemma Singleton(s: set<string>, q: string)
    requires |s| == 1 && q in s
    ensures s == {q}
  {
    assert |s - {q}| == 0;
  }

  /** The insertion-ordered keys of the candidate dictionary, each with the frame that inserted it. */
  ghost predicate FirstFrames(frames: seq<Frame>, order: seq<string>, at: seq<nat>, n: nat) {
    && |at| == |order|
    && (forall k {:trigger at[k]} :: 0 <= k < |order| ==> at[k] < n && Shows(frames, at[k], order[k]))
    && (forall k, i: nat {:trigger at[k], Shows(frames, i, order[k])} :: 0 <= k < |order| && i < at[k] ==>
                                                                           !Shows(frames, i, order[k]))
    && (forall j, k :: 0 <= j < k < |order| ==> at[j] < at[k])
    && (forall i: nat, p: string :: i < n && Shows(frames, i, p) ==> p in order)
  }

  ghost predicate BestSoFar(frames: seq<Frame>, n: nat, p: string, c: real) {
    && (exists i: nat :: i < n && Shows(frames, i, p) && frames[i].confidence == c)
    && (forall i: nat :: i < n && Shows(frames, i, p) ==> frames[i].confidence <= c)
  }

  /** What the two dictionaries hold for plate `p` once every frame is read. */
  ghost predicate Candidate(frames: seq<Frame>, auth: set<string>,
                            candidates: map<string, set<string>>, confidences: map<string, real>, p: string) {
    && p != ""
    && p in candidates && candidates[p] == Neighbours(p, auth)
    && p in confidences && BestConfidence(frames, p, confidences[p])
  }

  ghost predicate Best(frames: seq<Frame>, n: nat, confidences: map<string, real>) {
    forall p :: p in confidences ==> BestSoFar(frames, n, p, confidences[p])
  }

  method CollectCandidates(frames: seq<Frame>, auth: set<string>)
    returns (order: seq<string>, ghost at: seq<nat>, candidates: map<string, set<string>>, confidences: map<string,
                                                                                                            real>)
    ensures FirstFrames(frames, order, at, |frames|)
    ensures forall k :: 0 <= k < |order| ==> Candidate(frames, auth, candidates, confidences, order[k])
  {
    order, at, candidates, confidences := [], [], map[], map[];
    for n := 0 to |frames|
      invariant FirstFrames(frames, order, at, n)
      invariant forall p :: p in candidates <==> p in order
      invariant confidences.Keys == candidates.Keys
      invariant forall p :: p in candidates ==> candidates[p] == Neighbours(p, auth)
      invariant Best(frames, n, confidences)
    {
      if Qualifies(frames[n], MIN_FUZZY_CONFIDENCE) {
        var p := frames[n].plate;
        FirstFramesStep(frames, order, at, n, p);
        BestStep(frames, n, confidences, p);
        if p !in candidates {
          order, at := order + [p], at + [n];
          candidates := candidates[p := {}];
        }
        candidates := candidates[p := candidates[p] + Neighbours(p, auth)];
        confidences := confidences[p := Larger(confidences, p, frames[n].confidence)];
      } else {
        FirstFramesSkip(frames, order, at, n);
        BestSkip(frames, n, confidences);
      }
    }
    forall k | 0 <= k < |order|
      ensures Candidate(frames, auth, candidates, confidences, order[k])
    {
      assert order[k] in order;
      assert BestSoFar(frames, |frames|, order[k], confidences[order[k]]);
    }
  }

  /** `max(confidences.get(p, 0.0), c)` */
  function Larger(confidences: map<string, real>, p: string, c: real): real {
    var soFar := if p in confidences then confidences[p] else 0.0;
    if soFar >= c then soFar else c
  }

  lemma BestStep(frames: seq<Frame>, n: nat, confidences: map<string, real>, p: string)
    requires n < |frames| && Shows(frames, n, p) && Best(frames, n, confidences)
    requires p !in confidences ==> forall i: nat :: i < n ==> !Shows(frames, i, p)
    ensures Best(frames, n + 1, confidences[p := Larger(confidences, p, frames[n].confidence)])
  {
    var next := confidences[p := Larger(confidences, p, frames[n].confidence)];
    forall q | q in next
      ensures BestSoFar(frames, n + 1, q, next[q])
    {
      if q in confidences {
        var i: nat :| i < n && Shows(frames, i, q) && frames[i].confidence == confidences[q];
      }
    }
  }

  lemma BestSkip(frames: seq<Frame>, n: nat, confidences: map<string, real>)
    requires Best(frames, n, confidences) && forall p :: !Shows(frames, n, p)
    ensures Best(frames, n + 1, confidences)
  {
    forall q | q in confidences
      ensures BestSoFar(frames, n + 1, q, confidences[q])
    {
      var i: nat :| i < n && Shows(frames, i, q) && frames[i].confidence == confidences[q];
    }
  }

  lemma FirstFramesStep(frames: seq<Frame>, order: seq<string>, at: seq<nat>, n: nat, p: string)
    requires FirstFrames(frames, order, at, n) && Shows(frames, n, p)
    ensures p in order ==> FirstFrames(frames, order, at, n + 1)
    ensures p !in order ==>
              FirstFrames(frames, order + [p], at + [n], n + 1) && forall i: nat :: i < n ==> !Shows(frames, i, p)
  {
    var longer := order + [p];
    assert longer[|order|] == p;
    forall i: nat, q: string | i < n && Shows(frames, i, q)
      ensures q in order && q in longer
    {
      var k :| 0 <= k < |order| && order[k] == q;
      assert longer[k] == q;
    }
  }

  lemma FirstFramesSkip(frames: seq<Frame>, order: seq<string>, at: seq<nat>, n: nat)
    requires FirstFrames(frames, order, at, n) && forall p :: !Shows(frames, n, p)
    ensures FirstFrames(frames, order, at, n + 1)
  {
  }

  /** Plate `p` decides when two frames show it and it has an authorised neighbour. */
  ghost predicate Decides(frames: seq<Frame>, auth: set<string>, p: string) {
    && (exists i: nat, j: nat :: i < j && Shows(frames, i, p) && Shows(frames, j, p))
    && Neighbours(p, auth) != {}
  }

  lemma FirstDecider(frames: seq<Frame>, auth: set<string>, order: seq<string>, at: seq<nat>, n: nat)
    requires FirstFrames(frames, order, at, |frames|) && n < |order|
    requires Decides(frames, auth, order[n])
    requires forall k :: 0 <= k < n ==> !Decides(frames, auth, order[k])
    ensures FuzzyFrame(frames, auth, at[n], order[n])
    ensures forall j: nat, q: string :: j < at[n] ==> !FuzzyFrame(frames, auth, j, q)
  {
    var p, first := order[n], at[n];
    var i: nat, j: nat :| i < j && Shows(frames, i, p) && Shows(frames, j, p);
    assert first <= i;
    forall j: nat, q: string | j < first && Shows(frames, j, q)
      ensures !FuzzyFrame(frames, auth, j, q)
    {
      var k := KeyOf(frames, order, at, j, q);
      FuzzyDecides(frames, auth, j, q);
      assert k < n;
    }
  }

  lemma KeyOf(frames: seq<Frame>, order: seq<string>, at: seq<nat>, i: nat, p: string) returns (k: nat)
    requires FirstFrames(frames, order, at, |frames|) && Shows(frames, i, p)
    ensures k < |order| && order[k] == p && at[k] <= i
  {
    k :| 0 <= k < |order| && order[k] == p;
  }

  lemma FuzzyDecides(frames: seq<Frame>, auth: set<string>, i: nat, p: string)
    ensures FuzzyFrame(frames, auth, i, p) ==> Decides(frames, auth, p)
  {
  }

  lemma NoDecider(frames: seq<Frame>, auth: set<string>, order: seq<string>, at: seq<nat>)
    requires FirstFrames(frames, order, at, |frames|)
    requires forall k :: 0 <= k < |order| ==> !Decides(frames, auth, order[k])
    ensures !SomeFuzzy(frames, auth)
  {
    forall i: nat, p: string | Shows(frames, i, p)
      ensures !FuzzyFrame(frames, auth, i, p)
    {
      var k := KeyOf(frames, order, at, i, p);
      FuzzyDecides(frames, auth, i, p);
    }
  }

  // ---- What the rule means --------------------------------------------------

  /** The rule leaves no freedom: it is a function of the frames and the set of plates. */
  lemma RuleDetermines(frames: seq<Frame>, auth: set<string>, d: MatchDecision, e: MatchDecision)
    requires Rule(frames, auth, d) && Rule(frames, auth, e)
    ensures d == e
  {
    if SomeExact(frames, auth) {
      var i: nat, p: string :| ExactFrame(frames, auth, i, p)
                               && (forall j: nat, q: string :: j < i ==> !ExactFrame(frames, auth, j, q))
                               && d == MatchDecision(true, ExactMatch, Some(p), Some(p), frames[i].confidence);
      var j: nat, q: string :| ExactFrame(frames, auth, j, q)
                               && (forall k: nat, r: string :: k < j ==> !ExactFrame(frames, auth, k, r))
                               && e == MatchDecision(true, ExactMatch, Some(q), Some(q), frames[j].confidence);
      assert i == j;
    } else if SomeFuzzy(frames, auth) {
      var i: nat, p: string :| FuzzyFrame(frames, auth, i, p)
                               && (forall j: nat, q: string :: j < i ==> !FuzzyFrame(frames, auth, j, q))
                               && BestConfidence(frames, p, d.confidence) && d.observedPlate == Some(p)
                               && d.allowed == (|Neighbours(p, auth)| == 1)
                               && if d.allowed
                               then d.reason == TwoFrameOcrConfusion && d.authorisedPlate.Some?
                                    && Neighbours(p, auth) == {d.authorisedPlate.value}
                               else d.reason == AmbiguousFuzzyMatch && d.authorisedPlate == None;
      var j: nat, q: string :| FuzzyFrame(frames, auth, j, q)
                               && (forall k: nat, r: string :: k < j ==> !FuzzyFrame(frames, auth, k, r))
                               && BestConfidence(frames, q, e.confidence) && e.observedPlate == Some(q)
                               && e.allowed == (|Neighbours(q, auth)| == 1)
                               && if e.allowed
                               then e.reason == TwoFrameOcrConfusion && e.authorisedPlate.Some?
                                    && Neighbours(q, auth) == {e.authorisedPlate.value}
                               else e.reason == AmbiguousFuzzyMatch && e.authorisedPlate == None;
      assert i == j && p == q;
      if d.allowed {
        assert d.authorisedPlate.value in {e.authorisedPlate.value};
      }
    }
  }

  /** Order and duplicates in the authorised list do not matter. */
  lemma AuthorisedListOrderIrrelevant(obs: seq<PlateObservation>, a: seq<string>, b: seq<string>,
                                      d: MatchDecision, e: MatchDecision)
    requires forall x :: x in a <==> x in b
    requires Rule(Frames(obs), AuthorisedSet(a), d) && Rule(Frames(obs), AuthorisedSet(b), e)
    ensures d == e
  {
    forall p | p in AuthorisedSet(a)
      ensures p in AuthorisedSet(b)
    {
      var i :| 0 <= i < |a| && p == NormalisePlate(a[i]);
      assert a[i] in b;
    }
    forall p | p in AuthorisedSet(b)
      ensures p in AuthorisedSet(a)
    {
      var i :| 0 <= i < |b| && p == NormalisePlate(b[i]);
      assert b[i] in a;
    }
    assert AuthorisedSet(a) == AuthorisedSet(b);
    RuleDetermines(Frames(obs), AuthorisedSet(a), d, e);
  }

  /** Fail closed: an opened gate names an authorised plate that a confident frame shows, exactly or
      by one known confusion seen twice; and every such exact frame opens it. */
  lemma AllowedMeansAuthorised(frames: seq<Frame>, auth: set<string>, d: MatchDecision)
    requires Rule(frames, auth, d)
    ensures d.allowed ==> d.authorisedPlate.Some? && d.authorisedPlate.value in auth && d.observedPlate.Some?
    ensures d.allowed && d.observedPlate != d.authorisedPlate ==>
              IsOneKnownConfusion(d.observedPlate.value, d.authorisedPlate.value)
              && Decides(frames, auth, d.observedPlate.value)
    ensures d.reason == ExactMatch <==> SomeExact(frames, auth)
  {
    if !SomeExact(frames, auth) && SomeFuzzy(frames, auth) {
      var i: nat, p: string :| FuzzyFrame(frames, auth, i, p) && d.observedPlate == Some(p)
                               && d.allowed == (|Neighbours(p, auth)| == 1)
                               && (d.allowed ==>
                                     && d.authorisedPlate.Some?
                                     && Neighbours(p, auth) == {d.authorisedPlate.value});
      if d.allowed {
        assert d.authorisedPlate.value in Neighbours(p, auth);
      }
    }
  }

  /** Observation `i` was read as this plate, with a confidence of at least 0.90. */
  ghost predicate ReadAs(obs: seq<PlateObservation>, i: nat, plate: string) {
    i < |obs| && obs[i].plate.Some? && NormalisePlate(obs[i].plate.value) == plate && plate != ""
    && obs[i].confidence >= 0.90
  }

  ghost predicate Listed(authorised: seq<string>, plate: string) {
    plate != "" && exists k :: 0 <= k < |authorised| && NormalisePlate(authorised[k]) == plate
  }

  /** Two characters that look alike to OCR. */
  predicate LookAlike(c: char, d: char) {
    (c in "0O" && d in "0O") || (c in "1IL" && d in "1IL") || (c in "2Z" && d in "2Z") || (c in "5S" && d in "5S")
    || (c in "8B" && d in "8B")
  }

  /** The same length, and one position differs, by two characters that look alike. */
  ghost predicate OneLookAlike(a: string, b: string) {
    |a| == |b| && exists k :: 0 <= k < |a| && a[k] != b[k] && LookAlike(a[k], b[k]) && b == a[k := b[k]]
  }

  lemma SameGroupMeaning(c: char, d: char)
    ensures SameGroup(c, d) <==> LookAlike(c, d)
  {
    var groups := CONFUSION_GROUPS;
    if LookAlike(c, d) {
      var g := if c in "0O" then 0 else if c in "1IL" then 1 else if c in "2Z" then 2 else if c in "5S" then 3 else 4;
      assert {c, d} <= groups[g];
    }
    if SameGroup(c, d) {
      var g :| 0 <= g < |groups| && {c, d} <= groups[g];
      assert c in {c, d} && d in {c, d};
      assert c in groups[g] && d in groups[g];
    }
  }

  lemma NeighbourMeaning(a: string, b: string)
    ensures IsOneKnownConfusion(a, b) <==> OneLookAlike(a, b)
  {
    ConfusionMeaning(a, b);
    forall c: char, d: char
      ensures SameGroup(c, d) <==> LookAlike(c, d)
    {
      SameGroupMeaning(c, d);
    }
    if k: nat :| OneConfusionAt(a, b, k) {
      assert OneLookAlike(a, b);
    }
    if OneLookAlike(a, b) {
      var k :| 0 <= k < |a| && a[k] != b[k] && LookAlike(a[k], b[k]) && b == a[k := b[k]];
      assert OneConfusionAt(a, b, k);
    }
  }

  lemma ShowsIsRead(obs: seq<PlateObservation>, i: nat, p: string)
    ensures Shows(Frames(obs), i, p) <==> ReadAs(obs, i, p)
  {
    assert NormalisePlate("") == "";
  }

  lemma InSetIsListed(authorised: seq<string>, p: string)
    ensures p in AuthorisedSet(authorised) <==> Listed(authorised, p)
  {
  }

  /**
   In terms of what was observed and listed: the gate opens only for a listed plate that a confident
   observation reads exactly, or that one look-alike separates from a plate read twice; and a listed
   plate that is read exactly always opens it.
   */
  lemma AllowedNamesAListedPlate(obs: seq<PlateObservation>, authorised: seq<string>, d: MatchDecision)
    requires Rule(Frames(obs), AuthorisedSet(authorised), d)
    ensures d.allowed ==>
              && d.authorisedPlate.Some? && Listed(authorised, d.authorisedPlate.value) && d.observedPlate.Some?
              && (exists i: nat :: ReadAs(obs, i, d.observedPlate.value))
              && (d.observedPlate != d.authorisedPlate ==>
                    && OneLookAlike(d.observedPlate.value, d.authorisedPlate.value)
                    && exists i: nat, j: nat ::
                         i < j && ReadAs(obs, i, d.observedPlate.value) && ReadAs(obs, j, d.observedPlate.value))
    ensures forall i: nat, p: string :: ReadAs(obs, i, p) && Listed(authorised, p) ==>
                                          d.allowed && d.reason == ExactMatch
  {
    var frames, auth := Frames(obs), AuthorisedSet(authorised);
    AllowedMeansAuthorised(frames, auth, d);
    forall i: nat, p: string
      ensures Shows(frames, i, p) <==> ReadAs(obs, i, p)
    {
      ShowsIsRead(obs, i, p);
    }
    forall p: string
      ensures p in auth <==> Listed(authorised, p)
    {
      InSetIsListed(authorised, p);
    }
    forall i: nat, p: string | ReadAs(obs, i, p) && Listed(authorised, p)
      ensures d.allowed && d.reason == ExactMatch
    {
      assert ExactFrame(frames, auth, i, p);
    }
    if d.allowed && d.observedPlate != d.authorisedPlate {
      NeighbourMeaning(d.observedPlate.value, d.authorisedPlate.value);
      var i: nat, j: nat :| i < j && Shows(frames, i, d.observedPlate.value) && Shows(frames, j, d.observedPlate.value);
      assert ReadAs(obs, i, d.observedPlate.value) && ReadAs(obs, j, d.observedPlate.value);
    }
    if d.allowed && d.observedPlate == d.authorisedPlate {
      AllowedEqualIsExact(frames, auth, d);
      var i: nat :| Shows(frames, i, d.observedPlate.value);
      assert ReadAs(obs, i, d.observedPlate.value);
    }
  }

  lemma AllowedEqualIsExact(frames: seq<Frame>, auth: set<string>, d: MatchDecision)
    requires Rule(frames, auth, d) && d.allowed
    ensures d.observedPlate.Some? && exists i: nat :: Shows(frames, i, d.observedPlate.value)
  {
  }

  /** Later frames never take an exact match away, and never change which frame made it. */
  lemma ExactSurvivesMoreFrames(frames: seq<Frame>, more: seq<Frame>, auth: set<string>, d: MatchDecision,
                                e: MatchDecision)
    requires Rule(frames, auth, d) && d.reason == ExactMatch
    requires Rule(frames + more, auth, e)
    ensures e == d
  {
    AllowedMeansAuthorised(frames, auth, d);
    var i: nat, p: string :| ExactFrame(frames, auth, i, p)
                             && (forall j: nat, q: string :: j < i ==> !ExactFrame(frames, auth, j, q))
                             && d == MatchDecision(true, ExactMatch, Some(p), Some(p), frames[i].confidence);
    assert ExactFrame(frames + more, auth, i, p);
    forall j: nat, q: string | j < i
      ensures !ExactFrame(frames + more, auth, j, q)
    {
      assert !ExactFrame(frames, auth, j, q);
    }
    assert Rule(frames + more, auth, d);
    RuleDetermines(frames + more, auth, d, e);
  }
}
