/** Which agent engines a worker offers: configured capabilities reconciled with published diagnostics. */
module EngineDiagnostics {
  import opened Text
  import opened Payloads
  import opened Collections

  // ---- Capabilities ----

  /** A decoded capability value; `Other` stands for numbers, lists, objects and null. */
  datatype Value = Bool(value: bool) | Words(text: string) | Other(tag: int)

  datatype Document = Empty | Malformed | Null | Object(members: map<string, Value>)

  function Engines(): set<string> { {CODEX, CLAUDE_CODE, PI} }

  const ISSUE_WORKING_COPY_V1 := "issueWorkingCopyV1"

  function CapabilityKey(engine: string): string {
    if engine == CLAUDE_CODE then "claudeCode" else engine
  }

  predicate ValueEnabled(v: Value) {
    match v
    case Bool(b) => b
    case Words(text) => EqualFold(TrimSpace(text), "true")
    case Other(_) => false
  }

  predicate CapabilityEnabled(d: Document, name: string) {
    name != "" && d.Object? && name in d.members && ValueEnabled(d.members[name])
  }

  datatype RequireResult = Required(document: Document) | DecodeFailed | Panicked

  /** A JSON null decodes into a nil map, and assigning to that is fatal. */
  function RequireIssueWorkingCopyCapability(d: Document): RequireResult {
    match d
    case Empty => Required(Object(map[ISSUE_WORKING_COPY_V1 := Bool(true)]))
    case Malformed => DecodeFailed
    case Null => Panicked
    case Object(members) => Required(Object(members[ISSUE_WORKING_COPY_V1 := Bool(true)]))
  }

  // ---- Diagnostics ----

  datatype Status = Ready | NeedsSetup | Unverified | Missing | ProbeError

  datatype Diagnostic = Diagnostic(status: Status, reasonCode: string, version: string, checkedAt: string)

  type Diagnostics = map<string, Diagnostic>

  const RESOLUTION_FAILED := "executable_resolution_failed"
  const DISABLED := "disabled_by_configuration"

  predicate TurnsOff(s: Status) {
    s == NeedsSetup || s == Missing || s == ProbeError
  }

  /** An engine that is enabled but was diagnosed as unusable. */
  predicate Withdrawn(base: Document, d: Diagnostics, engine: string) {
    engine in Engines() && engine in d && TurnsOff(d[engine].status) && CapabilityEnabled(base, CapabilityKey(engine))
  }

  ghost predicate WithdrawnBy(base: Document, d: Diagnostics, engines: set<string>, key: string) {
    exists engine :: engine in engines && key == CapabilityKey(engine) && Withdrawn(base, d, engine)
  }

  /** The configured members with those of the given engines switched off that are unusable. */
  ghost function Reconciled(base: Document, d: Diagnostics, engines: set<string>): map<string, Value> {
    if !base.Object? then map[]
    else map key | key in base.members :: if WithdrawnBy(base, d, engines, key) then Bool(false) else base.members[key]
  }

  /** The capabilities to publish beside the diagnostics; a nil map is encoded as null again. */
  ghost function Reconcile(base: Document, d: Diagnostics): Document {
    if base.Null? then Null else Object(Reconciled(base, d, Engines()))
  }

  /** The engine keeps the diagnosis that its executable is missing or cannot be resolved. */
  predicate KeepsDiagnosis(d: Diagnostics, engine: string) {
    && engine in d
    && (d[engine].status == Missing || (d[engine].status == ProbeError && d[engine].reasonCode == RESOLUTION_FAILED))
  }

  predicate Overridden(base: Document, d: Diagnostics, engine: string) {
    engine in Engines() && !CapabilityEnabled(base, CapabilityKey(engine)) && !KeepsDiagnosis(d, engine)
  }

  /** What a switched-off engine is reported as; the time of an earlier check is kept. */
  function DisabledDiagnostic(d: Diagnostics, engine: string, now: string -> string): Diagnostic {
    var checkedAt := if engine in d && d[engine].checkedAt != "" then d[engine].checkedAt else now(engine);
    Diagnostic(Unverified, DISABLED, "", checkedAt)
  }

  /** The diagnostics with those of the given engines replaced that the configuration switched off. */
  function AllowedBy(base: Document, d: Diagnostics, now: string -> string, engines: set<string>): Diagnostics {
    map engine | engine in d.Keys + engines && (engine in d || Overridden(base, d, engine)) ::
      if engine in engines && Overridden(base, d, engine) then DisabledDiagnostic(d, engine, now) else d[engine]
  }

  function Allowed(base: Document, d: Diagnostics, now: string -> string): Diagnostics {
    AllowedBy(base, d, now, Engines())
  }

  lemma CapabilityKeysAreDistinct(a: string, b: string)
    requires a in Engines() && b in Engines() && CapabilityKey(a) == CapabilityKey(b)
    ensures a == b
  {
  }

  lemma EnabledIsMember(base: Document, engine: string)
    requires CapabilityEnabled(base, CapabilityKey(engine))
    ensures base.Object? && CapabilityKey(engine) in base.members
  {
  }

  // ---- The loops, in whatever order the map is walked ----

  lemma ReconciledEngine(base: Document, d: Diagnostics, engines: set<string>, engine: string)
    requires engine in Engines()
    ensures Reconciled(base, d, engines + {engine}) ==
            if Withdrawn(base, d, engine) then Reconciled(base, d, engines)[CapabilityKey(engine) := Bool(false)]
            else Reconciled(base, d, engines)
  {
    if Withdrawn(base, d, engine) {
      EnabledIsMember(base, engine);
    }
    hide CapabilityKey, Withdrawn, CapabilityEnabled, Engines;
    if base.Object? {
      forall key | key in base.members
        ensures WithdrawnBy(base, d, engines + {engine}, key) <==>
                WithdrawnBy(base, d, engines, key) || (key == CapabilityKey(engine) && Withdrawn(base, d, engine))
      {
        OneMoreEngine(base, d, engines, engine, key);
      }
    }
  }

  lemma OneMoreEngine(base: Document, d: Diagnostics, engines: set<string>, engine: string, key: string)
    ensures WithdrawnBy(base, d, engines + {engine}, key) <==>
            WithdrawnBy(base, d, engines, key) || (key == CapabilityKey(engine) && Withdrawn(base, d, engine))
  {
    hide CapabilityKey, Withdrawn;
    if WithdrawnBy(base, d, engines, key) {
      var e :| e in engines && key == CapabilityKey(e) && Withdrawn(base, d, e);
      assert e in engines + {engine};
    }
    if key == CapabilityKey(engine) && Withdrawn(base, d, engine) {
      assert engine in engines + {engine};
    }
  }

  lemma ReconciledNone(base: Document, d: Diagnostics)
    ensures Reconciled(base, d, {}) == if base.Object? then base.members else map[]
  {
  }

  method ReconcileAgentEngineCapabilities(base: Document, d: Diagnostics) returns (r: Document)
    ensures r == Reconcile(base, d)
  {
    hide CapabilityEnabled, CapabilityKey, TurnsOff, Reconciled, Engines;
    var values: map<string, Value> := if base.Object? then base.members else map[];
    var rest := Engines();
    ReconciledNone(base, d);
    assert Engines() - rest == {};
    while rest != {}
      invariant rest <= Engines() && values == Reconciled(base, d, Engines() - rest)
      decreases |rest|
    {
      ghost var some := SomeElement(rest);
      var engine :| engine in rest;
      ReconciledEngine(base, d, Engines() - rest, engine);
      if engine in d && CapabilityEnabled(base, CapabilityKey(engine)) && TurnsOff(d[engine].status) {
        EnabledIsMember(base, engine);
        assert !base.Null?; // the map that is assigned to is never nil
        values := values[CapabilityKey(engine) := Bool(false)];
      }
      assert Engines() - (rest - {engine}) == Engines() - rest + {engine};
      rest := rest - {engine};
    }
    assert Engines() - rest == Engines();
    r := if base.Null? then Null else Object(values);
  }

  lemma AllowedEngine(base: Document, d: Diagnostics, now: string -> string, engines: set<string>, engine: string)
    requires engine in Engines()
    ensures AllowedBy(base, d, now, engines + {engine}) ==
            if Overridden(base, d, engine)
            then AllowedBy(base, d, now, engines)[engine := DisabledDiagnostic(d, engine, now)]
            else AllowedBy(base, d, now, engines)
  {
    hide Overridden, DisabledDiagnostic, Engines;
  }

  lemma AllowedNone(base: Document, d: Diagnostics, now: string -> string)
    ensures AllowedBy(base, d, now, {}) == d
  {
  }

  method ApplyAgentEngineAllowlist(base: Document, d: Diagnostics, now: string -> string) returns (r: Diagnostics)
    ensures r == Allowed(base, d, now)
  {
    hide CapabilityEnabled, CapabilityKey, DisabledDiagnostic, KeepsDiagnosis, AllowedBy, Engines;
    r := d;
    var rest := Engines();
    AllowedNone(base, d, now);
    assert Engines() - rest == {};
    while rest != {}
      invariant rest <= Engines() && r == AllowedBy(base, d, now, Engines() - rest)
      decreases |rest|
    {
      ghost var some := SomeElement(rest);
      var engine :| engine in rest;
      AllowedEngine(base, d, now, Engines() - rest, engine);
      if !CapabilityEnabled(base, CapabilityKey(engine)) && !KeepsDiagnosis(d, engine) {
        r := r[engine := DisabledDiagnostic(d, engine, now)];
      }
      assert Engines() - (rest - {engine}) == Engines() - rest + {engine};
      rest := rest - {engine};
    }
    assert Engines() - rest == Engines();
  }

  // ---- What reconciling guarantees ----

  /** Nothing is ever switched on, only engines are touched, and the working copy capability stays. */
  lemma ReconcileOnlySwitchesEnginesOff(base: Document, d: Diagnostics, name: string)
    requires base.Object?
    ensures CapabilityEnabled(Reconcile(base, d), name)
            <==> CapabilityEnabled(base, name) && !WithdrawnBy(base, d, Engines(), name)
    ensures Reconcile(base, d).members.Keys == base.members.Keys
    ensures name in base.members && (forall engine :: engine in Engines() ==> name != CapabilityKey(engine)) ==>
              Reconcile(base, d).members[name] == base.members[name]
  {
    hide CapabilityKey, Withdrawn, Text.TrimSpace, Text.Lower;
  }

  lemma WorkingCopyIsNoEngine(engine: string)
    requires engine in Engines()
    ensures ISSUE_WORKING_COPY_V1 != CapabilityKey(engine)
  {
  }

  /** What a worker offers for an engine after a published refresh. */
  lemma EngineOfferedExactly(base: Document, raw: Diagnostics, now: string -> string, engine: string)
    requires base.Object? && engine in Engines()
    ensures var d := Allowed(base, raw, now);
            CapabilityEnabled(Reconcile(base, d), CapabilityKey(engine)) <==>
              CapabilityEnabled(base, CapabilityKey(engine)) && !(engine in raw && TurnsOff(raw[engine].status))
  {
    hide CapabilityEnabled, CapabilityKey, KeepsDiagnosis, DisabledDiagnostic, Reconcile;
    var d := Allowed(base, raw, now);
    var key := CapabilityKey(engine);
    ReconcileOnlySwitchesEnginesOff(base, d, key);
    if CapabilityEnabled(base, key) {
      assert !Overridden(base, raw, engine);
      if WithdrawnBy(base, d, Engines(), key) {
        var other :| other in Engines() && key == CapabilityKey(other) && Withdrawn(base, d, other);
        CapabilityKeysAreDistinct(engine, other);
      }
      if engine in raw && TurnsOff(raw[engine].status) {
        assert Withdrawn(base, d, engine);
      }
    }
  }

  /** Exactly a missing document and an object can carry the working copy capability; every other member is kept. */
  lemma RequiredExactly(d: Document)
    ensures RequireIssueWorkingCopyCapability(d).Required? <==> d.Empty? || d.Object?
    ensures RequireIssueWorkingCopyCapability(d).Required? ==>
              var r := RequireIssueWorkingCopyCapability(d).document;
              && CapabilityEnabled(r, ISSUE_WORKING_COPY_V1)
              && forall name | name != ISSUE_WORKING_COPY_V1 ::
                   CapabilityEnabled(r, name) <==> CapabilityEnabled(d, name)
  {
    hide ValueEnabled;
    assert ValueEnabled(Bool(true)) by { TruthIsEnabled(); }
    assert ISSUE_WORKING_COPY_V1 != "";
  }

  lemma TruthIsEnabled()
    ensures ValueEnabled(Bool(true))
  {
  }

  /** Adding the working copy capability again to what was published changes nothing. */
  lemma RequiringAgainChangesNothing(configured: Document, d: Diagnostics)
    requires RequireIssueWorkingCopyCapability(configured).Required?
    ensures var base := RequireIssueWorkingCopyCapability(configured).document;
            && CapabilityEnabled(base, ISSUE_WORKING_COPY_V1)
            && CapabilityEnabled(Reconcile(base, d), ISSUE_WORKING_COPY_V1)
            && RequireIssueWorkingCopyCapability(Reconcile(base, d)) == Required(Reconcile(base, d))
  {
    hide CapabilityKey, Withdrawn, Text.TrimSpace, Text.Lower;
    var base := RequireIssueWorkingCopyCapability(configured).document;
    forall engine | engine in Engines() ensures ISSUE_WORKING_COPY_V1 != CapabilityKey(engine) {
      WorkingCopyIsNoEngine(engine);
    }
    ReconcileOnlySwitchesEnginesOff(base, d, ISSUE_WORKING_COPY_V1);
    assert ISSUE_WORKING_COPY_V1 != "";
  }

  // ---- Refreshes and snapshots ----

  /** One diagnosis and the clock it is stamped with. */
  datatype Diagnosis = Diagnosis(raw: Diagnostics, now: string -> string)

  /** What the state shows after the given refreshes: the configuration at first, then the last refresh alone. */
  ghost function Published(base: Document, applied: seq<Diagnosis>): (Document, Diagnostics) {
    if applied == [] then (base, map[])
    else
      var last := applied[|applied| - 1];
      var d := Allowed(base, last.raw, last.now);
      (Reconcile(base, d), d)
  }

  /** Capabilities and diagnostics that belong together. */
  ghost predicate Matches(base: Document, pair: (Document, Diagnostics)) {
    pair.0 == Reconcile(base, pair.1)
  }

  lemma PublishedMatches(base: Document, applied: seq<Diagnosis>)
    ensures Matches(base, Published(base, applied)) <==> applied != [] || base.Object? || base.Null?
  {
    hide Withdrawn, Allowed, CapabilityKey, Engines;
    if applied == [] && base.Object? {
      assert forall key :: !WithdrawnBy(base, map[], Engines(), key) by {
        NothingDiagnosed(base);
      }
    }
  }

  lemma NothingDiagnosed(base: Document)
    ensures forall key :: !WithdrawnBy(base, map[], Engines(), key)
  {
    hide CapabilityKey, CapabilityEnabled;
  }

  /** Where a goroutine is; the refreshing points hold the refresh lock. */
  datatype Pc =
    | Idle
    | Refreshing
    | Diagnosed(diagnosis: Diagnosis)
    | Locked(diagnosis: Diagnosis)           // also holds the state lock
    | HalfWritten(diagnosis: Diagnosis)      // the diagnostics are stored, the capabilities not yet
    | Written
    | Unlocked
    | Reading                                // holds the state lock shared
    | ReadOne(capabilities: Document)
    | ReadBoth(capabilities: Document, diagnostics: Diagnostics)
    | Got(capabilities: Document, diagnostics: Diagnostics)

  datatype State = State(capabilities: Document, diagnostics: Diagnostics, applied: seq<Diagnosis>, pcs: map<nat, Pc>)

  datatype Step =
    | LockRefresh(t: nat)
    | Diagnose(t: nat, diagnosis: Diagnosis)
    | LockState(t: nat)
    | WriteDiagnostics(t: nat)
    | WriteCapabilities(t: nat)
    | UnlockState(t: nat)
    | UnlockRefresh(t: nat)
    | LockShared(t: nat)
    | ReadCapabilities(t: nat)
    | ReadDiagnostics(t: nat)
    | UnlockShared(t: nat)

  predicate HoldsRefresh(pc: Pc) {
    pc.Refreshing? || pc.Diagnosed? || pc.Locked? || pc.HalfWritten? || pc.Written? || pc.Unlocked?
  }

  predicate HoldsState(pc: Pc) {
    pc.Locked? || pc.HalfWritten? || pc.Written?
  }

  predicate HoldsShared(pc: Pc) {
    pc.Reading? || pc.ReadOne? || pc.ReadBoth?
  }

  predicate Resting(pc: Pc) {
    pc.Idle? || pc.Got?
  }

  predicate Enabled(s: State, step: Step) {
    step.t in s.pcs &&
    match step
    case LockRefresh(t) => Resting(s.pcs[t]) && forall u :: u in s.pcs ==> !HoldsRefresh(s.pcs[u])
    case Diagnose(t, _) => s.pcs[t].Refreshing?
    case LockState(t) =>
      s.pcs[t].Diagnosed? && forall u :: u in s.pcs ==> !HoldsState(s.pcs[u]) && !HoldsShared(s.pcs[u])
    case WriteDiagnostics(t) => s.pcs[t].Locked?
    case WriteCapabilities(t) => s.pcs[t].HalfWritten?
    case UnlockState(t) => s.pcs[t].Written?
    case UnlockRefresh(t) => s.pcs[t].Unlocked?
    case LockShared(t) => Resting(s.pcs[t]) && forall u :: u in s.pcs ==> !HoldsState(s.pcs[u])
    case ReadCapabilities(t) => s.pcs[t].Reading?
    case ReadDiagnostics(t) => s.pcs[t].ReadOne?
    case UnlockShared(t) => s.pcs[t].ReadBoth?
  }

  ghost function Apply(base: Document, s: State, step: Step): State
    requires Enabled(s, step)
  {
    match step
    case LockRefresh(t) => s.(pcs := s.pcs[t := Refreshing])
    case Diagnose(t, diagnosis) => s.(pcs := s.pcs[t := Diagnosed(diagnosis)])
    case LockState(t) => s.(pcs := s.pcs[t := Locked(s.pcs[t].diagnosis)])
    case WriteDiagnostics(t) =>
      var diagnosis := s.pcs[t].diagnosis;
      s.(diagnostics := Allowed(base, diagnosis.raw, diagnosis.now), pcs := s.pcs[t := HalfWritten(diagnosis)])
    case WriteCapabilities(t) =>
      var diagnosis := s.pcs[t].diagnosis;
      s.(capabilities := Reconcile(base, Allowed(base, diagnosis.raw, diagnosis.now)),
         applied := s.applied + [diagnosis],
         pcs := s.pcs[t := Written])
    case UnlockState(t) => s.(pcs := s.pcs[t := Unlocked])
    case UnlockRefresh(t) => s.(pcs := s.pcs[t := Idle])
    case LockShared(t) => s.(pcs := s.pcs[t := Reading])
    case ReadCapabilities(t) => s.(pcs := s.pcs[t := ReadOne(s.capabilities)])
    case ReadDiagnostics(t) => s.(pcs := s.pcs[t := ReadBoth(s.pcs[t].capabilities, s.diagnostics)])
    case UnlockShared(t) => s.(pcs := s.pcs[t := Got(s.pcs[t].capabilities, s.pcs[t].diagnostics)])
  }

  ghost predicate IsInitial(base: Document, s: State) {
    && s.capabilities == base && s.diagnostics == map[] && s.applied == []
    && forall t :: t in s.pcs ==> s.pcs[t] == Idle
  }

  ghost predicate IsRun(base: Document, states: seq<State>, steps: seq<Step>) {
    && |states| == |steps| + 1 && IsInitial(base, states[0])
    && forall i | 0 <= i < |steps| ::
         Enabled(states[i], steps[i]) && states[i + 1] == Apply(base, states[i], steps[i])
  }

  /** A pair the state showed after some of the refreshes. */
  ghost predicate WasPublished(base: Document, applied: seq<Diagnosis>, pair: (Document, Diagnostics)) {
    exists k :: 0 <= k <= |applied| && pair == Published(base, applied[..k])
  }

  ghost predicate PcInv(base: Document, s: State, pc: Pc) {
    match pc
    case HalfWritten(diagnosis) =>
      s.capabilities == Published(base, s.applied).0 && s.diagnostics == Allowed(base, diagnosis.raw, diagnosis.now)
    case ReadOne(capabilities) => capabilities == s.capabilities
    case ReadBoth(capabilities, diagnostics) => capabilities == s.capabilities && diagnostics == s.diagnostics
    case Got(capabilities, diagnostics) => WasPublished(base, s.applied, (capabilities, diagnostics))
    case _ => true
  }

  ghost predicate Inv(base: Document, s: State) {
    && (forall t, u :: t in s.pcs && u in s.pcs && HoldsRefresh(s.pcs[t]) && HoldsRefresh(s.pcs[u]) ==> t == u)
    && (forall t, u :: t in s.pcs && u in s.pcs && HoldsState(s.pcs[t]) ==> !HoldsShared(s.pcs[u]))
    && (forall t :: t in s.pcs ==> PcInv(base, s, s.pcs[t]))
    && ((forall t :: t in s.pcs ==> !s.pcs[t].HalfWritten?) ==>
          (s.capabilities, s.diagnostics) == Published(base, s.applied))
  }

  lemma PublishedStays(base: Document, applied: seq<Diagnosis>, pair: (Document, Diagnostics), more: Diagnosis)
    requires WasPublished(base, applied, pair)
    ensures WasPublished(base, applied + [more], pair)
  {
    hide Published;
    var k :| 0 <= k <= |applied| && pair == Published(base, applied[..k]);
    assert (applied + [more])[..k] == applied[..k];
  }

  lemma PublishedNow(base: Document, applied: seq<Diagnosis>)
    ensures WasPublished(base, applied, Published(base, applied))
  {
    hide Published;
    assert applied[..|applied|] == applied;
  }

  /** A goroutine may move on when its new place needs no lock that another one holds. */
  lemma MoveKeepsInv(base: Document, s: State, t: nat, pc: Pc)
    requires Inv(base, s) && t in s.pcs && !pc.HalfWritten? && !s.pcs[t].HalfWritten? && PcInv(base, s, pc)
    requires HoldsRefresh(pc) ==> HoldsRefresh(s.pcs[t]) || forall u :: u in s.pcs ==> !HoldsRefresh(s.pcs[u])
    requires HoldsState(pc) ==>
               HoldsState(s.pcs[t]) || forall u :: u in s.pcs ==> !HoldsState(s.pcs[u]) && !HoldsShared(s.pcs[u])
    requires HoldsShared(pc) ==> HoldsShared(s.pcs[t]) || forall u :: u in s.pcs ==> !HoldsState(s.pcs[u])
    requires HoldsShared(pc) ==> !HoldsState(pc)
    ensures Inv(base, s.(pcs := s.pcs[t := pc]))
  {
    hide Published, WasPublished, Allowed, Reconcile, HoldsRefresh, HoldsState, HoldsShared;
    var next := s.(pcs := s.pcs[t := pc]);
    forall u | u in next.pcs ensures PcInv(base, next, next.pcs[u]) {
      assert u != t ==> PcInv(base, s, s.pcs[u]);
    }
    forall u | (forall v :: v in next.pcs ==> !next.pcs[v].HalfWritten?) && u in s.pcs ensures !s.pcs[u].HalfWritten? {
      assert u != t ==> next.pcs[u] == s.pcs[u];
    }
  }

  /** Nothing is half written while a goroutine reads. */
  lemma ReaderSeesPublished(base: Document, s: State, t: nat)
    requires Inv(base, s) && t in s.pcs && HoldsShared(s.pcs[t])
    ensures (s.capabilities, s.diagnostics) == Published(base, s.applied)
  {
    hide Published, PcInv;
    forall u | u in s.pcs ensures !s.pcs[u].HalfWritten? {
      assert !HoldsState(s.pcs[u]);
    }
  }

  lemma MovingStepKeepsInv(base: Document, s: State, step: Step)
    requires Inv(base, s) && Enabled(s, step) && !step.WriteDiagnostics? && !step.WriteCapabilities?
    ensures Inv(base, Apply(base, s, step))
  {
    hide Published, WasPublished, Allowed, Reconcile, Inv;
    var t := step.t;
    var pc := Apply(base, s, step).pcs[t];
    assert PcInv(base, s, s.pcs[t]) by {
      PcInvOf(base, s, t);
    }
    if step.UnlockShared? {
      ReaderSeesPublished(base, s, t);
      PublishedNow(base, s.applied);
    }
    MoveKeepsInv(base, s, t, pc);
  }

  lemma PcInvOf(base: Document, s: State, t: nat)
    requires Inv(base, s) && t in s.pcs
    ensures PcInv(base, s, s.pcs[t])
  {
    hide PcInv;
  }

  lemma WriteKeepsInv(base: Document, s: State, step: Step)
    requires Inv(base, s) && Enabled(s, step) && (step.WriteDiagnostics? || step.WriteCapabilities?)
    ensures Inv(base, Apply(base, s, step))
  {
    hide WasPublished, Allowed, Reconcile;
    var next, t := Apply(base, s, step), step.t;
    forall u | u in next.pcs ensures PcInv(base, next, next.pcs[u]) {
      assert PcInv(base, s, s.pcs[u]);
      if step.WriteCapabilities? && s.pcs[u].Got? {
        PublishedStays(base, s.applied, (s.pcs[u].capabilities, s.pcs[u].diagnostics), s.pcs[t].diagnosis);
      }
    }
    assert next.pcs[t] == if step.WriteDiagnostics? then HalfWritten(s.pcs[t].diagnosis) else Written;
  }

  lemma StepKeepsInv(base: Document, s: State, step: Step)
    requires Inv(base, s) && Enabled(s, step)
    ensures Inv(base, Apply(base, s, step))
  {
    hide Inv, Enabled, Apply;
    if step.WriteDiagnostics? || step.WriteCapabilities? {
      WriteKeepsInv(base, s, step);
    } else {
      MovingStepKeepsInv(base, s, step);
    }
  }

  lemma InitialInv(base: Document, s: State)
    requires IsInitial(base, s)
    ensures Inv(base, s)
  {
  }

  lemma {:induction false} RunKeepsInv(base: Document, states: seq<State>, steps: seq<Step>, n: nat)
    requires IsRun(base, states, steps) && n < |states|
    ensures Inv(base, states[n])
  {
    hide Inv, Enabled, Apply, IsInitial;
    if n == 0 {
      InitialInv(base, states[0]);
    } else {
      RunKeepsInv(base, states, steps, n - 1);
      StepKeepsInv(base, states[n - 1], steps[n - 1]);
    }
  }

  /** Outside the two stores of a refresh, the state shows the last applied refresh and nothing of the earlier ones. */
  lemma StateShowsLastRefresh(base: Document, states: seq<State>, steps: seq<Step>, n: nat)
    requires IsRun(base, states, steps) && n < |states|
    requires forall t :: t in states[n].pcs ==> !states[n].pcs[t].HalfWritten?
    ensures (states[n].capabilities, states[n].diagnostics) == Published(base, states[n].applied)
  {
    hide Enabled, Apply, IsInitial, Published, PcInv;
    RunKeepsInv(base, states, steps, n);
  }

  /** Every snapshot is what one refresh published, whatever interleaves with it. */
  lemma SnapshotWasPublished(base: Document, states: seq<State>, steps: seq<Step>, n: nat, t: nat)
    requires IsRun(base, states, steps) && n < |states| && t in states[n].pcs && states[n].pcs[t].Got?
    ensures WasPublished(base, states[n].applied, (states[n].pcs[t].capabilities, states[n].pcs[t].diagnostics))
  {
    hide Enabled, Apply, IsInitial, Published, WasPublished;
    RunKeepsInv(base, states, steps, n);
    assert PcInv(base, states[n], states[n].pcs[t]);
  }

  ghost predicate SnapshotsMatch(base: Document) {
    forall states: seq<State>, steps: seq<Step>, n: nat, t: nat ::
      IsRun(base, states, steps) && n < |states| && t in states[n].pcs && states[n].pcs[t].Got? ==>
        Matches(base, (states[n].pcs[t].capabilities, states[n].pcs[t].diagnostics))
  }

  /** The run of one snapshot before any refresh. */
  lemma EarlySnapshot(base: Document) returns (states: seq<State>, steps: seq<Step>)
    ensures IsRun(base, states, steps) && |states| == 5 && 0 in states[4].pcs && states[4].pcs[0] == Got(base, map[])
  {
    hide Reconcile, Allowed;
    var s0 := State(base, map[], [], map[0 := Idle]);
    var s1 := Apply(base, s0, LockShared(0));
    var s2 := Apply(base, s1, ReadCapabilities(0));
    var s3 := Apply(base, s2, ReadDiagnostics(0));
    var s4 := Apply(base, s3, UnlockShared(0));
    states, steps := [s0, s1, s2, s3, s4], [LockShared(0), ReadCapabilities(0), ReadDiagnostics(0), UnlockShared(0)];
  }

  /**
    In every interleaving of refreshes and snapshots the capabilities of a snapshot are the reconciliation of the
    configuration with the diagnostics of the same snapshot, if and only if the configuration is a JSON object or null.
    The worker only starts with an object (see RequiredExactly).
   */
  lemma SnapshotsMatchExactly(base: Document)
    ensures SnapshotsMatch(base) <==> base.Object? || base.Null?
  {
    hide IsRun, Matches, Published;
    if base.Object? || base.Null? {
      forall states: seq<State>, steps: seq<Step>, n: nat, t: nat |
        IsRun(base, states, steps) && n < |states| && t in states[n].pcs && states[n].pcs[t].Got?
        ensures Matches(base, (states[n].pcs[t].capabilities, states[n].pcs[t].diagnostics))
      {
        SnapshotWasPublished(base, states, steps, n, t);
        var applied := states[n].applied;
        var k :| 0 <= k <= |applied| &&
          (states[n].pcs[t].capabilities, states[n].pcs[t].diagnostics) == Published(base, applied[..k]);
        PublishedMatches(base, applied[..k]);
      }
    } else {
      var states, steps := EarlySnapshot(base);
      PublishedMatches(base, []);
      NothingPublished(base);
      var n: nat, t: nat := 4, 0;
      assert states[n].pcs[t].Got?;
    }
  }

  lemma NothingPublished(base: Document)
    ensures Published(base, []) == (base, map[])
  {
  }

  // ---- The state as an object ----

  class AgentEngineDiagnosticState {
    const baseCapabilities: Document
    var capabilities: Document
    var diagnostics: Diagnostics
    ghost var applied: seq<Diagnosis>

    /** The configuration went through the working copy requirement, and the pair is the last published one. */
    ghost predicate Valid()
      reads this
    {
      && baseCapabilities.Object? && RequireIssueWorkingCopyCapability(baseCapabilities) == Required(baseCapabilities)
      && (capabilities, diagnostics) == Published(baseCapabilities, applied)
    }

    constructor (base: Document)
      requires base.Object? && RequireIssueWorkingCopyCapability(base) == Required(base)
      ensures Valid() && baseCapabilities == base && applied == []
    {
      baseCapabilities, capabilities, diagnostics, applied := base, base, map[], [];
    }

    method Refresh(diagnosis: Diagnosis)
      requires Valid()
      modifies this
      ensures Valid() && applied == old(applied) + [diagnosis]
    {
      var allowed := ApplyAgentEngineAllowlist(baseCapabilities, diagnosis.raw, diagnosis.now);
      var reconciled := ReconcileAgentEngineCapabilities(baseCapabilities, allowed);
      diagnostics, capabilities := allowed, reconciled;
      applied := applied + [diagnosis];
    }

    /** What a heartbeat carries: diagnostics never travel without the capabilities reconciled with them. */
    method WorkerInput(includeCapabilities: bool) returns (sent: Option<Document>, reported: Diagnostics)
      requires Valid()
      ensures (capabilities, reported) == Published(baseCapabilities, applied)
      ensures sent.Some? <==> includeCapabilities || reported != map[]
      ensures sent.Some? ==> Matches(baseCapabilities, (sent.value, reported))
    {
      hide Reconcile, Published, RequireIssueWorkingCopyCapability;
      ghost var pair := Published(baseCapabilities, applied);
      PublishedMatches(baseCapabilities, applied);
      reported := diagnostics;
      sent := if includeCapabilities || reported != map[] then Some(capabilities) else None;
    }

    /** The capabilities a task is checked against are the published ones. */
    method EffectiveCapabilities() returns (r: Document)
      requires Valid()
      ensures r == capabilities && CapabilityEnabled(r, ISSUE_WORKING_COPY_V1)
    {
      hide CapabilityEnabled, Reconcile, Published;
      PublishedMatches(baseCapabilities, applied);
      RequiringAgainChangesNothing(baseCapabilities, diagnostics);
      var required := RequireIssueWorkingCopyCapability(capabilities);
      r := if required.Required? then required.document else capabilities;
    }
  }
}
