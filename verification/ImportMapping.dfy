/** Choosing column mappings from the suggestions of an engine: greedy, one field and one column each. */
module ImportMapping {
  import opened Text
  import opened Collections
  import opened Payloads

  /** The confidence is a real number: rounding is not modelled. */
  datatype Suggestion = Suggestion(source: string, field: string, index: int, confidence: real)

  const FIELDS := [
    "title", "type", "area", "priority", "preconditions", "steps",
    "expected_result", "environment_requirements", "tags",
    "external_id", "latest_result"]

  predicate IsAllowedField(field: string) {
    TrimSpace(field) in FIELDS
  }

  /** The field a suggestion names, or the empty string when it is not one of ours. */
  function NormalizeField(value: string): string {
    var trimmed := TrimSpace(value);
    var field :=
      if trimmed == "expectedResult" then "expected_result"
      else if trimmed == "environmentRequirements" then "environment_requirements"
      else if trimmed == "externalId" then "external_id"
      else if trimmed == "latestResult" then "latest_result"
      else Lower(trimmed);
    if IsAllowedField(field) then field else ""
  }

  const BYTE_ORDER_MARK: char := 0xFEFF as char
  const WIDE_OPEN: char := 0xFF08 as char
  const WIDE_CLOSE: char := 0xFF09 as char

  function KeyChar(c: char): char {
    if c == ' ' || c == '-' then '_' else if c == WIDE_OPEN then '(' else if c == WIDE_CLOSE then ')' else c
  }

  function NormalizeKey(value: string): string {
    var lower := Lower(TrimSpace(value));
    var marked := if lower != "" && lower[0] == BYTE_ORDER_MARK then lower[1..] else lower;
    seq(|marked|, i requires 0 <= i < |marked| => KeyChar(marked[i]))
  }

  predicate Names(header: string, source: string) {
    NormalizeKey(header) == NormalizeKey(source)
  }

  /** The first header that the source names; a source without a key names none. */
  function HeaderIndex(headers: seq<string>, source: string): (r: int)
    ensures -1 <= r < |headers|
  {
    if NormalizeKey(source) == "" then -1 else FirstNamed(headers, source, 0)
  }

  function FirstNamed(headers: seq<string>, source: string, from: nat): (r: int)
    requires from <= |headers|
    ensures -1 <= r < |headers|
    decreases |headers| - from
  {
    if from == |headers| then -1
    else if Names(headers[from], source) then from
    else FirstNamed(headers, source, from + 1)
  }

  method ImportMappingHeaderIndex(headers: seq<string>, source: string) returns (r: int)
    ensures r == HeaderIndex(headers, source)
    ensures r == -1 <==> NormalizeKey(source) == "" || forall i :: 0 <= i < |headers| ==> !Names(headers[i], source)
    ensures r >= 0 ==> Names(headers[r], source) && forall i :: 0 <= i < r ==> !Names(headers[i], source)
  {
    hide NormalizeKey;
    var sourceKey := NormalizeKey(source);
    if sourceKey == "" {
      return -1;
    }
    var index := 0;
    while index < |headers|
      invariant 0 <= index <= |headers|
      invariant forall i :: 0 <= i < index ==> !Names(headers[i], source)
      invariant HeaderIndex(headers, source) == FirstNamed(headers, source, index)
    {
      if NormalizeKey(headers[index]) == sourceKey {
        return index;
      }
      index := index + 1;
    }
    r := -1;
  }

  function Clamp(confidence: real): real {
    var low := if confidence < 0.0 then 0.0 else confidence;
    var high := if low > 1.0 then 1.0 else low;
    if high == 0.0 then 0.5 else high
  }

  /** The column a suggestion means: by position, or else by header. */
  function ColumnOf(headers: seq<string>, s: Suggestion): int {
    if s.index < 0 then HeaderIndex(headers, TrimSpace(s.source)) else s.index
  }

  /** A suggestion by itself: completed, or none when its field or its column does not exist. */
  function Candidate(headers: seq<string>, s: Suggestion): Option<Suggestion> {
    var source, field := TrimSpace(s.source), NormalizeField(s.field);
    var index := ColumnOf(headers, s);
    if field == "" || index < 0 || index >= |headers| then None
    else Some(Suggestion(if source == "" then TrimSpace(headers[index]) else source, field, index, Clamp(s.confidence)))
  }

  predicate Clashes(a: Suggestion, b: Suggestion) {
    a.index == b.index || a.field == b.field
  }

  predicate ClashesWithAny(c: Suggestion, kept: seq<Suggestion>) {
    exists k :: 0 <= k < |kept| && Clashes(kept[k], c)
  }

  /** What the greedy pass keeps. */
  function Keep(headers: seq<string>, suggestions: seq<Suggestion>): seq<Suggestion> {
    if suggestions == [] then []
    else
      var kept := Keep(headers, suggestions[..|suggestions| - 1]);
      var c := Candidate(headers, suggestions[|suggestions| - 1]);
      if c.None? || ClashesWithAny(c.value, kept) then kept else kept + [c.value]
  }

  function IndexesOf(kept: seq<Suggestion>): set<int> {
    set s | s in kept :: s.index
  }

  function FieldsOf(kept: seq<Suggestion>): set<string> {
    set s | s in kept :: s.field
  }

  lemma SeenTells(kept: seq<Suggestion>, c: Suggestion)
    ensures ClashesWithAny(c, kept) <==> c.index in IndexesOf(kept) || c.field in FieldsOf(kept)
    ensures IndexesOf(kept + [c]) == IndexesOf(kept) + {c.index} && FieldsOf(kept + [c]) == FieldsOf(kept) + {c.field}
  {
    if ClashesWithAny(c, kept) {
      var k :| 0 <= k < |kept| && Clashes(kept[k], c);
      assert kept[k] in kept;
    }
    if c.index in IndexesOf(kept) || c.field in FieldsOf(kept) {
      var s :| s in kept && Clashes(s, c);
      var k :| 0 <= k < |kept| && kept[k] == s;
    }
  }

  method SelectImportMappings(headers: seq<string>, suggestions: seq<Suggestion>) returns (kept: seq<Suggestion>)
    ensures kept == Keep(headers, suggestions)
  {
    NothingSeen();
    hide NormalizeField, HeaderIndex, Text.TrimSpace, Clamp, IndexesOf, FieldsOf, ClashesWithAny;
    kept := [];
    var seenIndexes: map<int, bool> := map[];
    var seenFields: map<string, bool> := map[];
    var position := 0;
    while position < |suggestions|
      invariant 0 <= position <= |suggestions| && kept == Keep(headers, suggestions[..position])
      invariant seenIndexes.Keys == IndexesOf(kept) && seenFields.Keys == FieldsOf(kept)
    {
      var suggestion := suggestions[position];
      assert suggestions[..position + 1][..position] == suggestions[..position];
      position := position + 1;
      var source, field := TrimSpace(suggestion.source), NormalizeField(suggestion.field);
      if field == "" {
        continue;
      }
      var index := suggestion.index;
      if index < 0 {
        index := ImportMappingHeaderIndex(headers, source);
      }
      if index < 0 || index >= |headers| {
        continue;
      }
      ghost var candidate := Candidate(headers, suggestion).value;
      SeenTells(kept, candidate);
      if index in seenIndexes || field in seenFields {
        continue;
      }
      if source == "" {
        source := TrimSpace(headers[index]);
      }
      seenIndexes, seenFields := seenIndexes[index := true], seenFields[field := true];
      kept := kept + [Suggestion(source, field, index, Clamp(suggestion.confidence))];
    }
    assert suggestions[..position] == suggestions;
  }

  lemma NothingSeen()
    ensures IndexesOf([]) == {} && FieldsOf([]) == {}
  {
  }

  // ---- What is kept ----

  /** Where the kept suggestions stood. */
  function Positions(headers: seq<string>, suggestions: seq<Suggestion>): seq<nat> {
    if suggestions == [] then []
    else
      var before := suggestions[..|suggestions| - 1];
      var c := Candidate(headers, suggestions[|suggestions| - 1]);
      if c.None? || ClashesWithAny(c.value, Keep(headers, before)) then Positions(headers, before)
      else Positions(headers, before) + [|suggestions| - 1]
  }

  ghost predicate Increasing(positions: seq<nat>, bound: nat) {
    && (forall i :: 0 <= i < |positions| ==> positions[i] < bound)
    && forall i, j :: 0 <= i < j < |positions| ==> positions[i] < positions[j]
  }

  /** The suggestion at p clashes with one chosen before it. */
  ghost predicate Beaten(headers: seq<string>, suggestions: seq<Suggestion>, positions: seq<nat>, p: nat)
    requires Increasing(positions, |suggestions|) && p < |suggestions|
  {
    exists k | 0 <= k < |positions| && positions[k] < p ::
      BothClash(headers, suggestions[positions[k]], suggestions[p])
  }

  predicate BothClash(headers: seq<string>, a: Suggestion, b: Suggestion) {
    var x, y := Candidate(headers, a), Candidate(headers, b);
    x.Some? && y.Some? && Clashes(x.value, y.value)
  }

  /**
    The choice without the algorithm: in the order given, exactly the suggestions that are possible and clash with
    nothing chosen before them.
   */
  ghost predicate IsGreedyChoice(headers: seq<string>, suggestions: seq<Suggestion>, positions: seq<nat>) {
    && Increasing(positions, |suggestions|)
    && forall p: nat :: p < |suggestions| ==>
         (p in positions <==> Candidate(headers, suggestions[p]).Some? && !Beaten(headers, suggestions, positions, p))
  }

  /** There is only one such choice. */
  lemma GreedyChoiceIsUnique(headers: seq<string>, suggestions: seq<Suggestion>, a: seq<nat>, b: seq<nat>, p: nat)
    requires IsGreedyChoice(headers, suggestions, a) && IsGreedyChoice(headers, suggestions, b) && p <= |suggestions|
    ensures forall q: nat :: q < p ==> (q in a <==> q in b)
  {
    hide Candidate, BothClash;
    if p > 0 {
      GreedyChoiceIsUnique(headers, suggestions, a, b, p - 1);
      BeatenAlike(headers, suggestions, a, b, p - 1);
      BeatenAlike(headers, suggestions, b, a, p - 1);
    }
  }

  lemma BeatenAlike(headers: seq<string>, suggestions: seq<Suggestion>, a: seq<nat>, b: seq<nat>, p: nat)
    requires Increasing(a, |suggestions|) && Increasing(b, |suggestions|) && p < |suggestions|
    requires forall q: nat :: q < p ==> (q in a <==> q in b)
    ensures Beaten(headers, suggestions, a, p) ==> Beaten(headers, suggestions, b, p)
  {
    hide BothClash;
    if Beaten(headers, suggestions, a, p) {
      var k :| 0 <= k < |a| && a[k] < p && BothClash(headers, suggestions[a[k]], suggestions[p]);
      assert a[k] in a && a[k] in b;
      var l :| 0 <= l < |b| && b[l] == a[k];
      assert b[l] < p && BothClash(headers, suggestions[b[l]], suggestions[p]);
    }
  }

  /** What is kept are the candidates at the positions, in order, and no two of them clash. */
  lemma {:induction false} KeptAtPositions(headers: seq<string>, suggestions: seq<Suggestion>)
    ensures var kept, positions := Keep(headers, suggestions), Positions(headers, suggestions);
            && |kept| == |positions| && Increasing(positions, |suggestions|)
            && (forall k :: 0 <= k < |kept| ==> Candidate(headers, suggestions[positions[k]]) == Some(kept[k]))
            && forall i, j :: 0 <= i < j < |kept| ==> !Clashes(kept[i], kept[j])
  {
    hide Candidate, Clashes;
    if suggestions != [] {
      KeptAtPositions(headers, suggestions[..|suggestions| - 1]);
    }
  }

  /** A later choice does not change what came before it. */
  lemma BeatenInPrefix(headers: seq<string>, suggestions: seq<Suggestion>, prior: seq<nat>, positions: seq<nat>, p: nat)
    requires suggestions != [] && Increasing(prior, |suggestions| - 1)
    requires positions == prior || positions == prior + [|suggestions| - 1]
    requires Increasing(positions, |suggestions|) && p < |suggestions| - 1
    ensures Beaten(headers, suggestions, positions, p) <==> Beaten(headers, suggestions[..|suggestions| - 1], prior, p)
    ensures p in positions <==> p in prior
  {
    hide BothClash;
    var before := suggestions[..|suggestions| - 1];
    if Beaten(headers, suggestions, positions, p) {
      var k :|
        0 <= k < |positions| && positions[k] < p && BothClash(headers, suggestions[positions[k]], suggestions[p]);
      assert k < |prior| && prior[k] < p && BothClash(headers, before[prior[k]], before[p]);
    }
    if Beaten(headers, before, prior, p) {
      var k :| 0 <= k < |prior| && prior[k] < p && BothClash(headers, before[prior[k]], before[p]);
      assert positions[k] < p && BothClash(headers, suggestions[positions[k]], suggestions[p]);
    }
  }

  /** The last suggestion is beaten exactly when it clashes with what is kept already. */
  lemma LastBeaten(headers: seq<string>, suggestions: seq<Suggestion>, positions: seq<nat>)
    requires suggestions != [] && Increasing(positions, |suggestions|)
    requires var prior := Positions(headers, suggestions[..|suggestions| - 1]);
             positions == prior || positions == prior + [|suggestions| - 1]
    ensures var n := |suggestions| - 1;
            var c := Candidate(headers, suggestions[n]);
            var kept := Keep(headers, suggestions[..n]);
            c.Some? ==> (Beaten(headers, suggestions, positions, n) <==> ClashesWithAny(c.value, kept))
  {
    hide Candidate, Clashes, Keep, Positions;
    var n := |suggestions| - 1;
    var before := suggestions[..n];
    var kept, prior, c := Keep(headers, before), Positions(headers, before), Candidate(headers, suggestions[n]);
    KeptAtPositions(headers, before);
    if c.Some? && Beaten(headers, suggestions, positions, n) {
      var k :|
        0 <= k < |positions| && positions[k] < n && BothClash(headers, suggestions[positions[k]], suggestions[n]);
      assert k < |prior| && before[prior[k]] == suggestions[positions[k]];
      assert Clashes(kept[k], c.value);
    }
    if c.Some? && ClashesWithAny(c.value, kept) {
      var k :| 0 <= k < |kept| && Clashes(kept[k], c.value);
      assert before[prior[k]] == suggestions[positions[k]];
      assert positions[k] < n && BothClash(headers, suggestions[positions[k]], suggestions[n]);
    }
  }

  /** The pass is order-preserving and maximal: it makes the one greedy choice. */
  lemma {:induction false} KeepIsGreedyChoice(headers: seq<string>, suggestions: seq<Suggestion>)
    ensures IsGreedyChoice(headers, suggestions, Positions(headers, suggestions))
  {
    hide Candidate, Clashes, Beaten, Increasing, Keep;
    KeptAtPositions(headers, suggestions);
    if suggestions == [] {
      NoPositions();
    } else {
      var n := |suggestions| - 1;
      var before := suggestions[..n];
      KeepIsGreedyChoice(headers, before);
      KeptAtPositions(headers, before);
      var prior, positions := Positions(headers, before), Positions(headers, suggestions);
      forall p: nat | p < |suggestions|
        ensures p in positions
                <==> Candidate(headers, suggestions[p]).Some? && !Beaten(headers, suggestions, positions, p)
      {
        if p < n {
          BeatenInPrefix(headers, suggestions, prior, positions, p);
          assert suggestions[p] == before[p];
        } else {
          LastBeaten(headers, suggestions, positions);
          NotThereYet(prior, n);
        }
      }
    }
  }

  lemma NoPositions()
    ensures Increasing([], 0)
  {
  }

  lemma NotThereYet(positions: seq<nat>, bound: nat)
    requires Increasing(positions, bound)
    ensures bound !in positions
  {
  }

  // ---- Each kept mapping ----

  lemma ClampIsPositive(confidence: real)
    ensures 0.0 < Clamp(confidence) <= 1.0 && Clamp(Clamp(confidence)) == Clamp(confidence)
  {
  }

  predicate IsFieldChar(c: char) { IsLower(c) || c == '_' }

  lemma FieldsAreLower(field: string)
    requires field in FIELDS
    ensures field != "" && Only(field, IsFieldChar)
  {
  }

  lemma LowerFieldIsFixed(field: string)
    requires field != "" && Only(field, IsFieldChar)
    ensures TrimSpace(field) == field && Lower(field) == field
  {
    hide Text.Trim;
    TrimFixed(field, IsSpace);
  }

  predicate IsAlias(value: string) {
    value == "expectedResult" || value == "environmentRequirements" || value == "externalId" || value == "latestResult"
  }

  lemma AliasHasCapital(value: string)
    requires IsAlias(value)
    ensures !Only(value, IsFieldChar)
  {
    var at :=
      if value == "expectedResult" || value == "externalId" then 8
      else if value == "latestResult" then 6
      else 11;
    assert !IsFieldChar(value[at]);
  }

  lemma AliasTargetsAreFields(value: string)
    requires value in ["expected_result", "environment_requirements", "external_id", "latest_result"]
    ensures value in FIELDS
  {
  }

  /** A field of ours is kept as it is. */
  lemma FieldIsKept(field: string)
    requires field in FIELDS
    ensures NormalizeField(field) == field
  {
    FieldsAreLower(field);
    LowerFieldIsFixed(field);
    if IsAlias(field) {
      AliasHasCapital(field);
    }
    hide Text.TrimSpace, Text.Lower, FIELDS;
  }

  /** What comes out of field normalization is one of the fields or nothing. */
  lemma NormalizedFieldIsField(value: string)
    ensures NormalizeField(value) != "" ==> NormalizeField(value) in FIELDS
  {
    var trimmed := TrimSpace(value);
    if IsAlias(trimmed) {
      AliasNormalizes(value);
    } else {
      LowerIsStable(trimmed);
      hide Text.TrimSpace, Text.Lower;
    }
  }

  lemma AliasNormalizes(value: string)
    requires IsAlias(TrimSpace(value))
    ensures NormalizeField(value) != "" ==>
              NormalizeField(value) in ["expected_result", "environment_requirements", "external_id", "latest_result"]
    ensures NormalizeField(value) != "" ==> NormalizeField(value) in FIELDS
  {
    hide Text.TrimSpace, Text.Lower, IsAllowedField;
    if NormalizeField(value) != "" {
      AliasTargetsAreFields(NormalizeField(value));
    }
  }

  /** A suggestion is possible exactly when it names a field and, by position or by header, a column. */
  lemma CandidateExactly(headers: seq<string>, s: Suggestion)
    ensures var c := Candidate(headers, s);
            && (c.Some? <==> NormalizeField(s.field) in FIELDS && 0 <= ColumnOf(headers, s) < |headers|)
            && (c.Some? ==> c.value.field == NormalizeField(s.field) && c.value.index == ColumnOf(headers, s))
            && (c.Some? ==> 0 <= c.value.index < |headers| && 0.0 < c.value.confidence <= 1.0)
  {
    hide NormalizeField, Text.TrimSpace, HeaderIndex;
    NormalizedFieldIsField(s.field);
    ClampIsPositive(s.confidence);
    EmptyIsNoField();
  }

  lemma EmptyIsNoField()
    ensures "" !in FIELDS
  {
  }

  /**
    One column and one field each, every confidence positive and at most one, no more mappings than columns or fields.
   */
  lemma KeptMappingsAreOneToOne(headers: seq<string>, suggestions: seq<Suggestion>)
    ensures var kept := Keep(headers, suggestions);
            && (forall i, j :: 0 <= i < j < |kept| ==> kept[i].index != kept[j].index && kept[i].field != kept[j].field)
            && (forall k :: 0 <= k < |kept| ==>
                  kept[k].field in FIELDS && 0 <= kept[k].index < |headers| && 0.0 < kept[k].confidence <= 1.0)
            && |kept| <= |headers| && |kept| <= |FIELDS| == 11
  {
    hide Candidate, Keep, Positions;
    var kept, positions := Keep(headers, suggestions), Positions(headers, suggestions);
    KeptAtPositions(headers, suggestions);
    forall k | 0 <= k < |kept|
      ensures kept[k].field in FIELDS && 0 <= kept[k].index < |headers| && 0.0 < kept[k].confidence <= 1.0
    {
      CandidateExactly(headers, suggestions[positions[k]]);
    }
    var indexes := seq(|kept|, i requires 0 <= i < |kept| => kept[i].index);
    var fields := seq(|kept|, i requires 0 <= i < |kept| => kept[i].field);
    var columns := seq(|headers|, i => i);
    assert forall k :: 0 <= k < |kept| ==> columns[kept[k].index] == indexes[k];
    DistinctElementsFit(indexes, columns);
    DistinctElementsFit(fields, FIELDS);
  }

  // ---- Choosing again ----

  lemma CandidateIsFixed(headers: seq<string>, s: Suggestion)
    requires Candidate(headers, s).Some?
    ensures Candidate(headers, Candidate(headers, s).value) == Candidate(headers, s)
  {
    NormalizedFieldIsField(s.field);
    ClampIsPositive(s.confidence);
    TrimSpaceIsStable(s.source);
    hide NormalizeField, Text.TrimSpace, HeaderIndex, Clamp;
    var c := Candidate(headers, s).value;
    FieldIsKept(c.field);
    TrimSpaceIsStable(headers[c.index]);
  }

  lemma {:induction false} KeepAll(headers: seq<string>, chosen: seq<Suggestion>)
    requires forall k :: 0 <= k < |chosen| ==> Candidate(headers, chosen[k]) == Some(chosen[k])
    requires forall i, j :: 0 <= i < j < |chosen| ==> !Clashes(chosen[i], chosen[j])
    ensures Keep(headers, chosen) == chosen
  {
    hide Candidate, Clashes;
    if chosen != [] {
      KeepAll(headers, chosen[..|chosen| - 1]);
    }
  }

  /** Choosing among the kept mappings keeps them all, unchanged. */
  lemma KeepIsIdempotent(headers: seq<string>, suggestions: seq<Suggestion>)
    ensures Keep(headers, Keep(headers, suggestions)) == Keep(headers, suggestions)
  {
    hide Candidate, Clashes, Keep;
    var kept, positions := Keep(headers, suggestions), Positions(headers, suggestions);
    KeptAtPositions(headers, suggestions);
    forall k | 0 <= k < |kept| ensures Candidate(headers, kept[k]) == Some(kept[k]) {
      CandidateIsFixed(headers, suggestions[positions[k]]);
    }
    KeepAll(headers, kept);
  }
}
