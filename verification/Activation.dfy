/**
  Activating a planned manifest: check, back up, replace, check again, and only then advance the schema.
  Steps interleave with outside edits and other manifest writers; a crash is a run that simply stops.
*/
module Activation {
  import opened Prelude
  import opened ManifestStore

  const PROJECT_FILE := "project.json"

  /** The complete target claims, every input as it was read, and the project as it will be committed. */
  datatype Plan = Plan(entries: Claims, inputs: map<string, string>, scripts: set<string>, advanced: string)

  datatype Phase =
    | Preflight
    | Locked
    | BackingUp
    | Remembering
    | Replacing
    | Rechecking
    | RollingBack
    | ConfirmingRollback
    | AdvancingSchema
    | Ended(result: Result)

  datatype Result =
    | Activated
    | ChangedSincePlanning
    | StepFailed
    | DriftUndone
    | DriftUndoIncomplete

  /**
    `seen` holds the inputs found unchanged in the check that is going on. The last three fields are history:
    whether this activation wrote the claims or the schema, and what it saw unchanged after writing the claims.
  */
  datatype State = State(
    files: map<string, string>, claims: Claims, backups: set<(string, string)>, claimBackups: set<Claims>, phase: Phase,
    previous: Claims, changed: bool, seen: set<string>,
    wroteClaims: bool, wroteSchema: bool, seenSinceWrite: set<string>)

  datatype Event =
    | OthersEdit(path: string, content: Option<string>)
    | OthersClaim(claims: Claims)
    | ReadInput(path: string)
    | CheckPassed
    | Backup
    | Remember
    | Replace(answersChanged: bool)
    | UndoSwap
    | ConfirmUndo
    | AdvanceSchema
    | Fails(afterEffect: bool)

  predicate Checking(phase: Phase) {
    phase.Preflight? || phase.Locked? || phase.Rechecking?
  }

  function Found(files: map<string, string>, path: string): Option<string> {
    if path in files then Some(files[path]) else None
  }

  predicate Enabled(plan: Plan, s: State, e: Event) {
    match e
    case OthersEdit(_, _) => true
    case OthersClaim(_) => true
    case ReadInput(path) => Checking(s.phase) && path in plan.inputs && path !in s.seen
    case CheckPassed => Checking(s.phase) && s.seen == plan.inputs.Keys
    case Backup => s.phase.BackingUp?
    case Remember => s.phase.Remembering?
    case Replace(answersChanged) => s.phase.Replacing? && (s.claims != plan.entries ==> answersChanged)
    case UndoSwap => s.phase.RollingBack?
    case ConfirmUndo => s.phase.ConfirmingRollback?
    case AdvanceSchema => s.phase.AdvancingSchema?
    case Fails(_) => !s.phase.Ended?
  }

  /** An input that differs ends the activation, or starts the undo if the claims were already replaced. */
  function Drifted(s: State): State {
    s.(phase := if !s.phase.Rechecking? then Ended(ChangedSincePlanning)
                else if s.changed then RollingBack
                else Ended(DriftUndone))
  }

  function AfterCheck(s: State): State {
    s.(phase := if s.phase.Preflight? then Locked else if s.phase.Locked? then BackingUp else AdvancingSchema,
        seen := {})
  }

  function WithFile(files: map<string, string>, path: string, content: Option<string>): map<string, string> {
    if content.Some? then files[path := content.value] else files - {path}
  }

  /** The claims after an operation that failed, with or without effect. */
  function ClaimsAfterFailing(plan: Plan, s: State, afterEffect: bool): Claims {
    if afterEffect && s.phase.Replacing? then plan.entries
    else if afterEffect && s.phase.RollingBack? && s.claims == plan.entries then s.previous
    else s.claims
  }

  /**
    An operation that fails may have taken effect; a failing check is a drift, a failing undo is reported as
    incomplete.
  */
  function Failing(plan: Plan, s: State, afterEffect: bool): State {
    if s.phase.Rechecking? then Drifted(s)
    else
      var advanced := afterEffect && s.phase.AdvancingSchema?;
      s.(claims := ClaimsAfterFailing(plan, s, afterEffect),
         wroteClaims := s.wroteClaims || (afterEffect && s.phase.Replacing?),
         files := if advanced then s.files[PROJECT_FILE := plan.advanced] else s.files,
         wroteSchema := s.wroteSchema || advanced,
         phase := Ended(if s.phase.RollingBack? || s.phase.ConfirmingRollback? then DriftUndoIncomplete
                        else StepFailed))
  }

  /** The project file and the scripts, with their bytes. */
  function BackedUp(plan: Plan, files: map<string, string>): set<(string, string)> {
    set path | path in files && path in plan.scripts + {PROJECT_FILE} :: (path, files[path])
  }

  /** The manifest file's own backup; without claims there need not be a file. */
  function SavedClaims(claims: Claims): set<Claims> {
    if claims == map[] then {} else {claims}
  }

  function WithBackups(plan: Plan, s: State): State {
    s.(backups := s.backups + BackedUp(plan, s.files), claimBackups := s.claimBackups + SavedClaims(s.claims),
       phase := Remembering)
  }

  function Remembered(s: State): State {
    s.(previous := s.claims, phase := Replacing)
  }

  function Replaced(plan: Plan, s: State, answersChanged: bool): State {
    s.(claims := plan.entries, wroteClaims := true, changed := answersChanged, phase := Rechecking, seen := {})
  }

  /** The guarded swap back to the remembered claims. */
  function SwappedBack(plan: Plan, s: State): State {
    s.(claims := if s.claims == plan.entries then s.previous else s.claims,
       phase := if s.claims == plan.entries then Ended(DriftUndone) else ConfirmingRollback)
  }

  function Confirmed(s: State): State {
    s.(phase := Ended(if s.claims == s.previous then DriftUndone else DriftUndoIncomplete))
  }

  function SchemaAdvanced(plan: Plan, s: State): State {
    s.(files := s.files[PROJECT_FILE := plan.advanced], wroteSchema := true, phase := Ended(Activated))
  }

  function SeenUnchanged(s: State, path: string): State {
    s.(seen := s.seen + {path},
       seenSinceWrite := if s.phase.Rechecking? then s.seenSinceWrite + {path} else s.seenSinceWrite)
  }

  function Step(plan: Plan, s: State, e: Event): State {
    if !Enabled(plan, s, e) then s
    else
      match e
      case OthersEdit(path, content) => s.(files := WithFile(s.files, path, content))
      case OthersClaim(claims) => s.(claims := claims)
      case ReadInput(path) =>
        if Found(s.files, path) == Some(plan.inputs[path]) then SeenUnchanged(s, path) else Drifted(s)
      case CheckPassed => AfterCheck(s)
      case Backup => WithBackups(plan, s)
      case Remember => Remembered(s)
      case Replace(answersChanged) => Replaced(plan, s, answersChanged)
      case UndoSwap => SwappedBack(plan, s)
      case ConfirmUndo => Confirmed(s)
      case AdvanceSchema => SchemaAdvanced(plan, s)
      case Fails(afterEffect) => Failing(plan, s, afterEffect)
  }

  function Begin(files: map<string, string>, claims: Claims): State {
    State(files, claims, {}, {}, Preflight, map[], false, {}, false, false, {})
  }

  function Run(plan: Plan, files: map<string, string>, claims: Claims, events: seq<Event>): State {
    if events == [] then Begin(files, claims)
    else Step(plan, Run(plan, files, claims, events[..|events| - 1]), events[|events| - 1])
  }

  // ---------------------------------------------------- with everybody writing

  ghost predicate Ordered(plan: Plan, s: State) {
    && s.seenSinceWrite <= plan.inputs.Keys && s.seen <= plan.inputs.Keys
    && (Checking(s.phase) || s.phase.BackingUp? || s.phase.Remembering? || s.phase.Replacing?
        || s.phase.AdvancingSchema?
        ==> !s.wroteSchema)
    && (s.phase.Preflight? || s.phase.Locked? || s.phase.BackingUp? || s.phase.Remembering? || s.phase.Replacing?
        ==> !s.wroteClaims && s.seenSinceWrite == {})
    && (s.phase.Rechecking? ==> s.wroteClaims && s.seen == s.seenSinceWrite)
    && (s.phase.RollingBack? || s.phase.ConfirmingRollback? ==> s.wroteClaims && s.changed && !s.wroteSchema)
    && (s.phase.AdvancingSchema? || s.wroteSchema ==> s.wroteClaims && s.seenSinceWrite == plan.inputs.Keys)
    && (s.phase == Ended(Activated) ==> s.wroteSchema)
    && (s.wroteSchema ==> s.phase == Ended(Activated) || s.phase == Ended(StepFailed))
  }

  lemma StepKeepsOrdered(plan: Plan, s: State, e: Event)
    requires Ordered(plan, s)
    ensures Ordered(plan, Step(plan, s, e))
  {
    hide Failing, WithFile, BackedUp;
    if e.Fails? && !s.phase.Ended? {
      FailingKeepsOrdered(plan, s, e.afterEffect);
    }
  }

  lemma FailingKeepsOrdered(plan: Plan, s: State, afterEffect: bool)
    requires Ordered(plan, s) && !s.phase.Ended?
    ensures Ordered(plan, Failing(plan, s, afterEffect))
  {
  }

  lemma {:induction false} RunIsOrdered(plan: Plan, files: map<string, string>, claims: Claims, events: seq<Event>)
    ensures Ordered(plan, Run(plan, files, claims, events))
  {
    if events != [] {
      RunIsOrdered(plan, files, claims, events[..|events| - 1]);
      StepKeepsOrdered(plan, Run(plan, files, claims, events[..|events| - 1]), events[|events| - 1]);
    }
  }

  /**
    At every point of every run, crashed or not and whoever else writes, the schema has been advanced only after
    the claims were replaced by the whole plan and every input was then seen unchanged.
  */
  lemma SchemaAdvancesLast(plan: Plan, files: map<string, string>, claims: Claims, events: seq<Event>)
    ensures var s := Run(plan, files, claims, events);
            && (s.wroteSchema ==> s.wroteClaims && s.seenSinceWrite == plan.inputs.Keys)
            && (s.phase == Ended(Activated) ==> s.wroteSchema)
            && (s.phase.Ended? && !s.phase.result.Activated? && !s.phase.result.StepFailed? ==> !s.wroteSchema)
  {
    RunIsOrdered(plan, files, claims, events);
  }

  /** A step of the activation itself changes the claims only in the replacement and in a matching undo. */
  lemma OwnStepsOnClaims(plan: Plan, s: State, e: Event)
    requires Enabled(plan, s, e) && !e.OthersClaim? && Step(plan, s, e).claims != s.claims
    ensures s.phase.Replacing?
        || (s.phase.RollingBack? && s.claims == plan.entries && Step(plan, s, e).claims == s.previous)
  {
    hide Found, WithFile, BackedUp, SavedClaims;
    if e.Fails? {
      FailingTouchesClaims(plan, s, e.afterEffect);
    } else {
      hide Failing;
    }
  }

  lemma FailingTouchesClaims(plan: Plan, s: State, afterEffect: bool)
    ensures var t := Failing(plan, s, afterEffect);
            t.claims == s.claims || s.phase.Replacing?
            || (s.phase.RollingBack? && s.claims == plan.entries && t.claims == s.previous)
  {
  }

  ghost predicate RememberedIn(plan: Plan, files: map<string, string>, claims: Claims, events: seq<Event>, k: nat,
      was: Claims)
    requires k < |events|
  {
    var before := Run(plan, files, claims, events[..k]);
    events[k].Remember? && before.phase.Remembering? && before.claims == was
  }

  /** Past the replacement, `previous` is what the claims were when they were remembered. */
  lemma {:induction false} PreviousIsRemembered(plan: Plan, files: map<string, string>, claims: Claims,
      events: seq<Event>)
    ensures var s := Run(plan, files, claims, events);
            s.phase.Replacing? || s.wroteClaims ==>
              exists k :: 0 <= k < |events| && RememberedIn(plan, files, claims, events, k, s.previous)
  {
    if events != [] {
      var n := |events| - 1;
      var earlier := events[..n];
      PreviousIsRemembered(plan, files, claims, earlier);
      RunIsOrdered(plan, files, claims, earlier);
      var before, s := Run(plan, files, claims, earlier), Run(plan, files, claims, events);
      PreviousStays(plan, before, events[n]);
      forall k | 0 <= k < n && RememberedIn(plan, files, claims, earlier, k, before.previous)
        ensures RememberedIn(plan, files, claims, events, k, before.previous)
      {
        assert earlier[..k] == events[..k];
      }
      if before.phase.Remembering? && events[n].Remember? {
        assert RememberedIn(plan, files, claims, events, n, s.previous);
      }
    }
  }

  lemma PreviousStays(plan: Plan, s: State, e: Event)
    requires Ordered(plan, s)
    ensures var t := Step(plan, s, e);
            t.phase.Replacing? || t.wroteClaims ==>
              || (s.phase.Remembering? && e.Remember? && t.previous == s.claims)
              || ((s.phase.Replacing? || s.wroteClaims) && t.previous == s.previous)
  {
    hide Found, WithFile, BackedUp, SavedClaims, Failing;
    if e.Fails? && !s.phase.Ended? {
      FailingKeepsPrevious(plan, s, e.afterEffect);
    }
  }

  lemma FailingKeepsPrevious(plan: Plan, s: State, afterEffect: bool)
    ensures var t := Failing(plan, s, afterEffect);
            t.previous == s.previous && !t.phase.Replacing? && (t.wroteClaims ==> s.wroteClaims || s.phase.Replacing?)
  {
  }

  /**
    Whoever else writes claims: when a drift after the replacement ends as undone, the claims are exactly what
    they were when they were remembered; and the activation itself wrote, if at all, only over its own plan.
  */
  lemma UndoSparesOtherWriters(plan: Plan, files: map<string, string>, claims: Claims, events: seq<Event>, e: Event)
    ensures var s := Run(plan, files, claims, events);
            var t := Run(plan, files, claims, events + [e]);
            !s.phase.Ended? && s.changed && t.phase == Ended(DriftUndone) ==>
              && (t.claims == s.claims || s.claims == plan.entries)
              && exists k :: 0 <= k < |events| && RememberedIn(plan, files, claims, events, k, t.claims)
  {
    var s, t := Run(plan, files, claims, events), Run(plan, files, claims, events + [e]);
    assert (events + [e])[..|events|] == events;
    RunIsOrdered(plan, files, claims, events);
    PreviousIsRemembered(plan, files, claims, events);
    if !s.phase.Ended? && s.changed && t.phase == Ended(DriftUndone) {
      UndoneMeansRestored(plan, s, e);
    }
  }

  lemma UndoneMeansRestored(plan: Plan, s: State, e: Event)
    requires Ordered(plan, s) && !s.phase.Ended? && s.changed && Step(plan, s, e).phase == Ended(DriftUndone)
    ensures s.wroteClaims && Step(plan, s, e).claims == s.previous
    ensures Step(plan, s, e).claims == s.claims || s.claims == plan.entries
  {
    hide Found, WithFile, BackedUp, SavedClaims;
  }

  // ------------------------------------------------- with no other claim writer

  predicate NoOtherClaims(events: seq<Event>) {
    forall i :: 0 <= i < |events| ==> !events[i].OthersClaim?
  }

  ghost predicate Alone(plan: Plan, claims: Claims, s: State) {
    && Ordered(plan, s)
    && (!s.wroteClaims ==> s.claims == claims)
    && (s.claims == claims || s.claims == plan.entries)
    && (s.phase.Replacing? ==> s.previous == claims)
    && (s.phase.Rechecking? || s.phase.AdvancingSchema? || s.wroteSchema ==> s.claims == plan.entries)
    && (s.phase.Rechecking? || s.phase.RollingBack? ==> s.previous == claims && (!s.changed ==> claims == plan.entries))
    && (s.phase.RollingBack? ==> s.claims == plan.entries)
    && !s.phase.ConfirmingRollback?
    && (s.phase == Ended(DriftUndone) || s.phase == Ended(ChangedSincePlanning) ==> s.claims == claims)
  }

  lemma StepKeepsAlone(plan: Plan, claims: Claims, s: State, e: Event)
    requires Alone(plan, claims, s) && !e.OthersClaim?
    ensures Alone(plan, claims, Step(plan, s, e))
  {
    hide Failing, WithFile, BackedUp, Ordered;
    StepKeepsOrdered(plan, s, e);
    if e.Fails? && !s.phase.Ended? {
      FailingKeepsAlone(plan, claims, s, e.afterEffect);
    }
    OrderedFacts(plan, s);
  }

  lemma OrderedFacts(plan: Plan, s: State)
    requires Ordered(plan, s)
    ensures s.wroteSchema ==> s.phase.Ended?
    ensures s.phase.Replacing? || s.phase.Remembering? ==> !s.wroteClaims
    ensures s.phase.Rechecking? || s.phase.RollingBack? || s.phase.AdvancingSchema? ==> s.wroteClaims
    ensures s.phase.Preflight? || s.phase.Locked? ==> !s.wroteClaims
  {
  }

  lemma FailingKeepsAlone(plan: Plan, claims: Claims, s: State, afterEffect: bool)
    requires Alone(plan, claims, s) && !s.phase.Ended?
    ensures Alone(plan, claims, Failing(plan, s, afterEffect))
  {
    hide Failing;
    FailingKeepsOrdered(plan, s, afterEffect);
    FailingClaims(plan, claims, s, afterEffect);
  }

  lemma FailingClaims(plan: Plan, claims: Claims, s: State, afterEffect: bool)
    requires Alone(plan, claims, s) && !s.phase.Ended?
    ensures var t := Failing(plan, s, afterEffect);
            && (t.claims == claims || t.claims == plan.entries)
            && (!t.wroteClaims ==> t.claims == claims)
            && (t.wroteSchema ==> t.claims == plan.entries)
            && (t.phase.RollingBack? ==> t.previous == claims && t.claims == plan.entries && t.changed)
            && (t.phase.Ended? || t.phase.RollingBack?)
            && (t.phase == Ended(DriftUndone) || t.phase == Ended(ChangedSincePlanning) ==> t.claims == claims)
  {
  }

  lemma {:induction false} RunIsAlone(plan: Plan, files: map<string, string>, claims: Claims, events: seq<Event>)
    requires NoOtherClaims(events)
    ensures Alone(plan, claims, Run(plan, files, claims, events))
  {
    if events != [] {
      RunIsAlone(plan, files, claims, events[..|events| - 1]);
      StepKeepsAlone(plan, claims, Run(plan, files, claims, events[..|events| - 1]), events[|events| - 1]);
    }
  }

  /**
    Wherever the activation stops, with files edited at will but no other claim writer: the claims are the old
    ones or the whole plan; an advanced schema always comes with the plan; a drift that was undone leaves the
    old claims; and nothing touched the claims if the inputs had changed before.
  */
  lemma EveryStoppingPointIsConsistent(plan: Plan, files: map<string, string>, claims: Claims, events: seq<Event>)
    requires NoOtherClaims(events)
    ensures var s := Run(plan, files, claims, events);
            && (s.claims == claims || s.claims == plan.entries)
            && (s.wroteSchema ==> s.claims == plan.entries)
            && (s.phase == Ended(Activated) ==> s.claims == plan.entries)
            && (s.phase == Ended(DriftUndone) || s.phase == Ended(ChangedSincePlanning) ==> s.claims == claims)
  {
    RunIsAlone(plan, files, claims, events);
  }

  ghost predicate FilesBacked(plan: Plan, files: map<string, string>, s: State) {
    && (!s.wroteSchema ==> s.files == files)
    && (s.phase.Remembering? || s.phase.Replacing? || s.wroteClaims ==> BackedUp(plan, files) <= s.backups)
  }

  ghost predicate ClaimsBacked(claims: Claims, s: State) {
    && (!s.wroteClaims ==> s.claims == claims)
    && (s.phase.Remembering? || s.phase.Replacing? || s.wroteClaims ==> SavedClaims(claims) <= s.claimBackups)
  }

  lemma StepKeepsFilesBacked(plan: Plan, files: map<string, string>, s: State, e: Event)
    requires Ordered(plan, s) && FilesBacked(plan, files, s) && !e.OthersEdit?
    ensures FilesBacked(plan, files, Step(plan, s, e))
  {
    hide BackedUp, SavedClaims, Found, WithFile;
  }

  lemma StepKeepsClaimsBacked(plan: Plan, claims: Claims, s: State, e: Event)
    requires Ordered(plan, s) && ClaimsBacked(claims, s) && !e.OthersClaim?
    ensures ClaimsBacked(claims, Step(plan, s, e))
  {
    hide BackedUp, SavedClaims, Found, WithFile;
  }

  predicate NoOtherEdits(events: seq<Event>) {
    forall i :: 0 <= i < |events| ==> !events[i].OthersEdit?
  }

  /**
    The claims are replaced only when what is at stake is backed up as it stands: project and scripts, if nobody
    else edits files, and the old claims, if nobody else writes claims.
  */
  lemma {:induction false} BackedUpBeforeReplacing(
      plan: Plan, files: map<string, string>, claims: Claims, events: seq<Event>)
    ensures NoOtherEdits(events) ==> FilesBacked(plan, files, Run(plan, files, claims, events))
    ensures NoOtherClaims(events) ==> ClaimsBacked(claims, Run(plan, files, claims, events))
  {
    if events != [] {
      hide FilesBacked, ClaimsBacked, Step;
      var n := |events| - 1;
      var s := Run(plan, files, claims, events[..n]);
      BackedUpBeforeReplacing(plan, files, claims, events[..n]);
      RunIsOrdered(plan, files, claims, events[..n]);
      if NoOtherEdits(events) {
        StepKeepsFilesBacked(plan, files, s, events[n]);
      }
      if NoOtherClaims(events) {
        StepKeepsClaimsBacked(plan, claims, s, events[n]);
      }
    } else {
      assert FilesBacked(plan, files, Begin(files, claims)) && ClaimsBacked(claims, Begin(files, claims));
    }
  }

  // ------------------------------------------------------- one whole activation

  /**
    What happens before each operation, which of them fail, and whether a replacement by the same claims
    rewrites the file.
  */
  datatype Surroundings = Surroundings(before: Phase -> seq<Event>, fails: Phase -> Option<bool>, rewrites: bool)

  ghost predicate OnlyOutside(around: Surroundings) {
    forall phase :: forall i :: 0 <= i < |around.before(phase)| ==>
      around.before(phase)[i].OthersEdit? || around.before(phase)[i].OthersClaim?
  }

  function EditedBy(files: map<string, string>, gap: seq<Event>): map<string, string> {
    if gap == [] then files
    else
      var earlier, e := EditedBy(files, gap[..|gap| - 1]), gap[|gap| - 1];
      if e.OthersEdit? then WithFile(earlier, e.path, e.content) else earlier
  }

  function ClaimedBy(claims: Claims, gap: seq<Event>): Claims {
    if gap == [] then claims
    else
      var earlier, e := ClaimedBy(claims, gap[..|gap| - 1]), gap[|gap| - 1];
      if e.OthersClaim? then e.claims else earlier
  }

  predicate InputsAre(plan: Plan, files: map<string, string>) {
    forall path :: path in plan.inputs ==> Found(files, path) == Some(plan.inputs[path])
  }

  /** A check of all inputs, undisturbed. */
  function Checked(plan: Plan, s: State): State {
    if !InputsAre(plan, s.files) then Drifted(s)
    else AfterCheck(s).(seenSinceWrite := if s.phase.Rechecking? then plan.inputs.Keys else s.seenSinceWrite)
  }

  function Disturbed(s: State, gap: seq<Event>): State {
    s.(files := EditedBy(s.files, gap), claims := ClaimedBy(s.claims, gap))
  }

  /** The operation of the current phase. */
  function Advance(plan: Plan, s: State, around: Surroundings): State
    requires !s.phase.Ended?
  {
    if around.fails(s.phase).Some? then Failing(plan, s, around.fails(s.phase).value)
    else
      match s.phase
      case BackingUp => WithBackups(plan, s)
      case Remembering => Remembered(s)
      case Replacing => Replaced(plan, s, around.rewrites || s.claims != plan.entries)
      case RollingBack => SwappedBack(plan, s)
      case ConfirmingRollback => Confirmed(s)
      case AdvancingSchema => SchemaAdvanced(plan, s)
      case _ => Checked(plan, s)
  }

  function Remaining(phase: Phase): nat {
    match phase
    case Preflight => 9
    case Locked => 8
    case BackingUp => 7
    case Remembering => 6
    case Replacing => 5
    case Rechecking => 4
    case RollingBack => 3
    case ConfirmingRollback => 2
    case AdvancingSchema => 1
    case Ended(_) => 0
  }

  lemma FailingEnds(plan: Plan, s: State, afterEffect: bool)
    ensures var t := Failing(plan, s, afterEffect); t.phase.Ended? || (s.phase.Rechecking? && t.phase.RollingBack?)
  {
  }

  lemma CheckedGoesOn(plan: Plan, s: State)
    requires Checking(s.phase)
    ensures var t := Checked(plan, s);
            && (Checking(t.phase) ==> t.seen == {})
            && match s.phase
               case Preflight => t.phase.Ended? || t.phase.Locked?
               case Locked => t.phase.Ended? || t.phase.BackingUp?
               case _ => t.phase.Ended? || t.phase.RollingBack? || t.phase.AdvancingSchema?
  {
    hide InputsAre;
    if InputsAre(plan, s.files) {
      hide Drifted;
    } else {
      hide AfterCheck;
    }
  }

  lemma AdvanceGoesOn(plan: Plan, s: State, around: Surroundings)
    requires !s.phase.Ended?
    ensures var t := Advance(plan, s, around);
            Remaining(t.phase) < Remaining(s.phase) && (Checking(t.phase) ==> t.seen == {})
  {
    hide Failing, Checked, BackedUp, SavedClaims;
    if around.fails(s.phase).Some? {
      FailingEnds(plan, s, around.fails(s.phase).value);
    } else if Checking(s.phase) {
      CheckedGoesOn(plan, s);
    }
  }

  /** The activation from a state on, to its end. */
  function Course(plan: Plan, s: State, around: Surroundings): State
    decreases Remaining(s.phase)
  {
    if s.phase.Ended? then s
    else
      var disturbed := Disturbed(s, around.before(s.phase));
      AdvanceGoesOn(plan, disturbed, around);
      Course(plan, Advance(plan, disturbed, around), around)
  }

  /** Everything that came from outside or failed was told by the surroundings. */
  ghost predicate Told(around: Surroundings, e: Event) {
    match e
    case Fails(afterEffect) => exists phase :: around.fails(phase) == Some(afterEffect)
    case OthersEdit(_, _) => exists phase :: e in around.before(phase)
    case OthersClaim(_) => exists phase :: e in around.before(phase)
    case _ => true
  }

  ghost predicate AllTold(around: Surroundings, events: seq<Event>) {
    forall i :: 0 <= i < |events| ==> Told(around, events[i])
  }

  /** `t` is where some events, all told, lead from `s`. */
  function Steps(plan: Plan, s: State, events: seq<Event>): State {
    if events == [] then s else Step(plan, Steps(plan, s, events[..|events| - 1]), events[|events| - 1])
  }

  lemma {:induction false} StepsInTurn(plan: Plan, s: State, earlier: seq<Event>, later: seq<Event>)
    ensures Steps(plan, s, earlier + later) == Steps(plan, Steps(plan, s, earlier), later)
    decreases |later|
  {
    hide Step;
    if later == [] {
      assert earlier + later == earlier;
    } else {
      var n := |later| - 1;
      StepsInTurn(plan, s, earlier, later[..n]);
      assert (earlier + later)[..|earlier + later| - 1] == earlier + later[..n];
    }
  }

  lemma {:induction false} RunIsSteps(plan: Plan, files: map<string, string>, claims: Claims, events: seq<Event>)
    ensures Run(plan, files, claims, events) == Steps(plan, Begin(files, claims), events)
  {
    hide Step;
    if events != [] {
      RunIsSteps(plan, files, claims, events[..|events| - 1]);
    }
  }

  lemma {:induction false} GapIsSteps(plan: Plan, s: State, gap: seq<Event>)
    requires forall i :: 0 <= i < |gap| ==> gap[i].OthersEdit? || gap[i].OthersClaim?
    ensures Steps(plan, s, gap) == Disturbed(s, gap)
  {
    if gap != [] {
      GapIsSteps(plan, s, gap[..|gap| - 1]);
    }
  }

  lemma {:induction false} ReadingsAreSteps(plan: Plan, s: State, todo: set<string>) returns (events: seq<Event>)
    requires Checking(s.phase) && todo <= plan.inputs.Keys && todo !! s.seen && InputsAre(plan, s.files)
    ensures forall i :: 0 <= i < |events| ==> events[i].ReadInput?
    ensures Steps(plan, s, events) ==
              s.(seen := s.seen + todo,
                 seenSinceWrite := if s.phase.Rechecking? then s.seenSinceWrite + todo else s.seenSinceWrite)
    decreases todo
  {
    events := [];
    if todo == {} {
      assert s.seen + todo == s.seen && s.seenSinceWrite + todo == s.seenSinceWrite;
    } else {
      var path :| path in todo;
      var rest := todo - {path};
      events := ReadingsAreSteps(plan, s, rest);
      var t := Steps(plan, s, events);
      assert (events + [ReadInput(path)])[..|events|] == events;
      assert s.seen + rest + {path} == s.seen + todo && s.seenSinceWrite + rest + {path} == s.seenSinceWrite + todo;
      events := events + [ReadInput(path)];
    }
  }

  /** The one step of an operation that does not check. */
  function OwnEvent(plan: Plan, s: State, around: Surroundings): Event {
    match s.phase
    case BackingUp => Backup
    case Remembering => Remember
    case Replacing => Replace(around.rewrites || s.claims != plan.entries)
    case RollingBack => UndoSwap
    case ConfirmingRollback => ConfirmUndo
    case _ => AdvanceSchema
  }

  lemma CheckIsSteps(plan: Plan, s: State) returns (events: seq<Event>)
    requires Checking(s.phase) && s.seen == {} && (s.phase.Rechecking? ==> s.seenSinceWrite == {})
    ensures forall i :: 0 <= i < |events| ==> !events[i].Fails? && !events[i].OthersEdit? && !events[i].OthersClaim?
    ensures Steps(plan, s, events) == Checked(plan, s)
  {
    if InputsAre(plan, s.files) {
      var readings := ReadingsAreSteps(plan, s, plan.inputs.Keys);
      var t := Steps(plan, s, readings);
      assert s.seen + plan.inputs.Keys == plan.inputs.Keys && {} + plan.inputs.Keys == plan.inputs.Keys;
      assert t.seen == plan.inputs.Keys;
      events := readings + [CheckPassed];
      assert events[..|readings|] == readings;
    } else {
      var path :| path in plan.inputs && Found(s.files, path) != Some(plan.inputs[path]);
      events := [ReadInput(path)];
      assert events[..0] == [] && Steps(plan, s, []) == s;
    }
  }

  lemma OneStep(plan: Plan, s: State, e: Event)
    ensures Steps(plan, s, [e]) == Step(plan, s, e)
  {
    assert [e][..0] == [];
  }

  lemma AdvanceIsSteps(plan: Plan, s: State, around: Surroundings) returns (events: seq<Event>)
    requires Ordered(plan, s) && !s.phase.Ended? && (Checking(s.phase) ==> s.seen == {})
    ensures AllTold(around, events)
    ensures Steps(plan, s, events) == Advance(plan, s, around)
  {
    hide Failing, BackedUp, SavedClaims, InputsAre;
    if around.fails(s.phase).Some? {
      events := [Fails(around.fails(s.phase).value)];
      OneStep(plan, s, events[0]);
    } else if Checking(s.phase) {
      events := CheckIsSteps(plan, s);
    } else {
      events := [OwnEvent(plan, s, around)];
      OneStep(plan, s, events[0]);
    }
  }

  /** Between operations nothing of a check is left over. */
  ghost predicate Fresh(plan: Plan, s: State) {
    Ordered(plan, s) && (Checking(s.phase) ==> s.seen == {})
  }

  lemma {:induction false} StepsKeepOrdered(plan: Plan, s: State, events: seq<Event>)
    requires Ordered(plan, s)
    ensures Ordered(plan, Steps(plan, s, events))
  {
    hide Ordered, Step;
    if events != [] {
      StepsKeepOrdered(plan, s, events[..|events| - 1]);
      StepKeepsOrdered(plan, Steps(plan, s, events[..|events| - 1]), events[|events| - 1]);
    }
  }

  lemma {:induction false} CourseIsSteps(plan: Plan, s: State, around: Surroundings) returns (events: seq<Event>)
    requires OnlyOutside(around) && Fresh(plan, s)
    ensures AllTold(around, events)
    ensures Steps(plan, s, events) == Course(plan, s, around) && Course(plan, s, around).phase.Ended?
    decreases Remaining(s.phase)
  {
    hide Ordered, Advance, Step, EditedBy, ClaimedBy;
    events := [];
    if !s.phase.Ended? {
      var gap := around.before(s.phase);
      GapIsSteps(plan, s, gap);
      var disturbed := Disturbed(s, gap);
      StepsKeepOrdered(plan, s, gap);
      var own := AdvanceIsSteps(plan, disturbed, around);
      AdvanceGoesOn(plan, disturbed, around);
      StepsKeepOrdered(plan, disturbed, own);
      var rest := CourseIsSteps(plan, Advance(plan, disturbed, around), around);
      StepsInTurn(plan, s, gap, own);
      StepsInTurn(plan, s, gap + own, rest);
      assert forall i :: 0 <= i < |gap| ==> gap[i] in gap && Told(around, gap[i]);
      events := gap + own + rest;
    }
  }

  /**
    Every activation is a run, ended by itself, in which only what its surroundings told came from outside or
    failed.
  */
  lemma ActivationIsARun(plan: Plan, files: map<string, string>, claims: Claims, around: Surroundings)
    requires OnlyOutside(around)
    ensures Course(plan, Begin(files, claims), around).phase.Ended?
    ensures exists events :: AllTold(around, events)
              && Run(plan, files, claims, events) == Course(plan, Begin(files, claims), around)
  {
    hide Course;
    var events := CourseIsSteps(plan, Begin(files, claims), around);
    RunIsSteps(plan, files, claims, events);
  }

  /** How a run can end otherwise than activated: something failed, differed, or was written by others. */
  lemma {:induction false} EndsForAReason(plan: Plan, files: map<string, string>, claims: Claims, events: seq<Event>)
    ensures var s := Run(plan, files, claims, events);
            && (s.phase == Ended(StepFailed) ==> exists i :: 0 <= i < |events| && events[i].Fails?)
            && (s.phase == Ended(DriftUndoIncomplete) ==>
                  exists i :: 0 <= i < |events| && (events[i].Fails? || events[i].OthersClaim?))
  {
    if events != [] {
      var n := |events| - 1;
      EndsForAReason(plan, files, claims, events[..n]);
      var s := Run(plan, files, claims, events[..n]);
      assert forall i :: 0 <= i < n ==> events[..n][i] == events[i];
      if NoOtherClaims(events) {
        assert NoOtherClaims(events[..n]);
        RunIsAlone(plan, files, claims, events[..n]);
      }
      EndingSteps(plan, s, events[n]);
    }
  }

  lemma EndingSteps(plan: Plan, s: State, e: Event)
    ensures var t := Step(plan, s, e);
            && (t.phase == Ended(StepFailed) ==> s.phase == t.phase || e.Fails?)
            && (t.phase == Ended(DriftUndoIncomplete) ==> s.phase == t.phase || e.Fails? || s.phase.ConfirmingRollback?)
  {
    hide Failing, BackedUp, SavedClaims, Found, WithFile;
  }

  ghost predicate ClaimsLeftAlone(around: Surroundings) {
    forall phase :: forall i :: 0 <= i < |around.before(phase)| ==> !around.before(phase)[i].OthersClaim?
  }

  ghost predicate NothingFails(around: Surroundings) {
    forall phase :: around.fails(phase).None?
  }

  /**
    What the theorems about runs say of one whole activation: the schema advances only past the plan and a check
    that found every input unchanged since; a failure has a cause; and with no other claim writer the claims are
    the old ones or the whole plan, the old ones exactly where the result says so.
  */
  lemma ActivationIsSafe(plan: Plan, files: map<string, string>, claims: Claims, around: Surroundings)
    requires OnlyOutside(around)
    ensures var t := Course(plan, Begin(files, claims), around);
            && t.phase.Ended?
            && (t.phase == Ended(Activated) ==> t.wroteSchema)
            && (t.wroteSchema ==> t.wroteClaims && t.seenSinceWrite == plan.inputs.Keys)
            && (t.phase == Ended(StepFailed) ==> !NothingFails(around))
            && (t.phase == Ended(DriftUndoIncomplete) ==> !NothingFails(around) || !ClaimsLeftAlone(around))
            && (ClaimsLeftAlone(around) ==>
                  && (t.claims == claims || t.claims == plan.entries)
                  && (t.wroteSchema ==> t.claims == plan.entries)
                  && (t.phase == Ended(DriftUndone) || t.phase == Ended(ChangedSincePlanning) ==> t.claims == claims))
  {
    hide Course, Step;
    ActivationIsARun(plan, files, claims, around);
    var events: seq<Event> :| AllTold(around, events)
      && Run(plan, files, claims, events) == Course(plan, Begin(files, claims), around);
    SchemaAdvancesLast(plan, files, claims, events);
    EndsForAReason(plan, files, claims, events);
    if ClaimsLeftAlone(around) {
      forall i | 0 <= i < |events| ensures !events[i].OthersClaim? {
        assert Told(around, events[i]);
      }
      EveryStoppingPointIsConsistent(plan, files, claims, events);
    }
    assert forall i :: 0 <= i < |events| ==> Told(around, events[i]);
  }

  lemma CourseGoesOn(plan: Plan, s: State, around: Surroundings)
    requires !s.phase.Ended?
    ensures Course(plan, s, around) == Course(plan, Advance(plan, Disturbed(s, around.before(s.phase)), around), around)
  {
  }

  /** Nothing fails in the phase, and a check finds every input as planned. */
  ghost predicate Passes(plan: Plan, phase: Phase, files: map<string, string>, around: Surroundings) {
    around.fails(phase).None? && (Checking(phase) ==> InputsAre(plan, EditedBy(files, around.before(phase))))
  }

  function Following(phase: Phase): Phase {
    match phase
    case Preflight => Locked
    case Locked => BackingUp
    case BackingUp => Remembering
    case Remembering => Replacing
    case Replacing => Rechecking
    case Rechecking => AdvancingSchema
    case _ => Ended(Activated)
  }

  predicate Undoing(phase: Phase) {
    phase.RollingBack? || phase.ConfirmingRollback?
  }

  lemma CheckedPasses(plan: Plan, s: State)
    requires Checking(s.phase)
    ensures var t := Checked(plan, s);
            && (InputsAre(plan, s.files) ==>
                t.phase == Following(s.phase) && t.files == s.files && t.claims == s.claims)
            && (!InputsAre(plan, s.files) ==> t.phase.RollingBack? || (t.phase.Ended? && t.phase != Ended(Activated)))
  {
    hide InputsAre;
    if InputsAre(plan, s.files) {
      hide Drifted;
    } else {
      hide AfterCheck;
    }
  }

  lemma FailingLeavesTheWay(plan: Plan, s: State, afterEffect: bool)
    ensures var t := Failing(plan, s, afterEffect);
            t.phase.RollingBack? || (t.phase.Ended? && t.phase != Ended(Activated))
  {
  }

  /** A phase that passes leads to the next one; any other leads to the undo or to an end without activation. */
  lemma PhasePasses(plan: Plan, s: State, around: Surroundings)
    requires !s.phase.Ended? && !Undoing(s.phase)
    ensures var t := Advance(plan, Disturbed(s, around.before(s.phase)), around);
            && (Passes(plan, s.phase, s.files, around) ==>
                  && t.phase == Following(s.phase)
                  && t.files == (if s.phase.AdvancingSchema? then
                                   EditedBy(s.files, around.before(s.phase))[PROJECT_FILE := plan.advanced]
                                 else EditedBy(s.files, around.before(s.phase)))
                  && t.claims == (if s.phase.Replacing? then plan.entries
                      else ClaimedBy(s.claims, around.before(s.phase))))
            && (!Passes(plan, s.phase, s.files, around) ==>
                t.phase.RollingBack? || (t.phase.Ended? && t.phase != Ended(Activated)))
  {
    hide InputsAre, EditedBy, ClaimedBy, BackedUp, SavedClaims, Checked, Failing;
    var disturbed := Disturbed(s, around.before(s.phase));
    if around.fails(s.phase).Some? {
      FailingLeavesTheWay(plan, disturbed, around.fails(s.phase).value);
    } else if Checking(s.phase) {
      CheckedPasses(plan, disturbed);
    }
  }

  lemma UndoNeverActivates(plan: Plan, s: State, around: Surroundings)
    requires Undoing(s.phase)
    ensures Course(plan, s, around).phase != Ended(Activated)
    decreases Remaining(s.phase)
  {
    hide EditedBy, ClaimedBy, Course;
    CourseGoesOn(plan, s, around);
    var t := Advance(plan, Disturbed(s, around.before(s.phase)), around);
    if t.phase.Ended? {
      CourseEnds(plan, t, around);
    } else {
      UndoNeverActivates(plan, t, around);
    }
  }

  /** Everything from the given state on passes, to the end. */
  ghost predicate AllPass(plan: Plan, phase: Phase, files: map<string, string>, around: Surroundings)
    decreases Remaining(phase)
  {
    phase.Ended?
    || (Passes(plan, phase, files, around)
        && Remaining(Following(phase)) < Remaining(phase)
        && AllPass(plan, Following(phase), EditedBy(files, around.before(phase)), around))
  }

  /**
    When an activation goes through: exactly when nothing fails and the inputs are as planned at the preflight, right
    after locking and, with everything edited up to then, after the claims were replaced.
  */
  lemma {:induction false} ActivatedExactlyWhenUnchanged(plan: Plan, s: State, around: Surroundings)
    requires !s.phase.Ended? && !Undoing(s.phase)
    ensures var t := Course(plan, s, around);
            && (t.phase == Ended(Activated) <==> AllPass(plan, s.phase, s.files, around))
            && (t.phase == Ended(Activated) ==> PROJECT_FILE in t.files && t.files[PROJECT_FILE] == plan.advanced)
    decreases Remaining(s.phase)
  {
    hide Course, Advance, Passes, InputsAre, EditedBy;
    CourseGoesOn(plan, s, around);
    PhasePasses(plan, s, around);
    var t := Advance(plan, Disturbed(s, around.before(s.phase)), around);
    if Passes(plan, s.phase, s.files, around) && !t.phase.Ended? {
      ActivatedExactlyWhenUnchanged(plan, t, around);
    } else if t.phase.Ended? {
      CourseEnds(plan, t, around);
    } else {
      UndoNeverActivates(plan, t, around);
    }
  }

  lemma CourseEnds(plan: Plan, s: State, around: Surroundings)
    requires s.phase.Ended?
    ensures Course(plan, s, around) == s
  {
  }

  // ---------------------------------------------------------------- imperative

  class ProjectDirectory {
    var files: map<string, string>
    var claims: Claims
    var backups: set<(string, string)>
    var claimBackups: set<Claims>

    constructor (files: map<string, string>, claims: Claims)
      ensures this.files == files && this.claims == claims && backups == {} && claimBackups == {}
    {
      this.files, this.claims, backups, claimBackups := files, claims, {}, {};
    }

    method InputsUnchanged(plan: Plan) returns (same: bool)
      ensures same <==> InputsAre(plan, files)
    {
      var todo := plan.inputs.Keys;
      while todo != {}
        invariant todo <= plan.inputs.Keys
        invariant forall path :: path in plan.inputs && path !in todo ==> Found(files, path) == Some(plan.inputs[path])
        decreases todo
      {
        var path :| path in todo;
        todo := todo - {path};
        if Found(files, path) != Some(plan.inputs[path]) {
          return false;
        }
      }
      same := true;
    }

    /** Edits and claim writes by others, one after the other. */
    method OutsideWrites(gap: seq<Event>)
      modifies this`files, this`claims
      ensures files == EditedBy(old(files), gap) && claims == ClaimedBy(old(claims), gap)
    {
      assert gap[..|gap|] == gap;
      for i := 0 to |gap|
        invariant files == EditedBy(old(files), gap[..i]) && claims == ClaimedBy(old(claims), gap[..i])
      {
        assert gap[..i + 1][..i] == gap[..i];
        match gap[i] {
          case OthersEdit(path, content) => files := WithFile(files, path, content);
          case OthersClaim(others) => claims := others;
          case _ =>
        }
      }
    }

    /** The directory as a state of the activation sees it, with the backups it has added to earlier ones. */
    ghost predicate Shows(s: State, earlier: set<(string, string)>, earlierClaims: set<Claims>)
      reads this
    {
      && files == s.files && claims == s.claims
      && backups == earlier + s.backups && claimBackups == earlierClaims + s.claimBackups
    }

    /** The check before the project lock is taken, and the one right after; nothing where it goes on. */
    method Check(
        plan: Plan, around: Surroundings, phase: Phase,
        ghost s: State, ghost earlier: set<(string, string)>, ghost earlierClaims: set<Claims>)
      returns (stop: Option<Result>, ghost t: State)
      requires phase == s.phase && (phase.Preflight? || phase.Locked?) && Shows(s, earlier, earlierClaims)
      modifies this`files, this`claims
      ensures Shows(t, earlier, earlierClaims) && Course(plan, s, around) == Course(plan, t, around)
      ensures t.phase == if stop.Some? then Ended(stop.value) else if phase.Preflight? then Locked else BackingUp
    {
      hide Course, BackedUp, SavedClaims, InputsAre, EditedBy, ClaimedBy;
      CourseGoesOn(plan, s, around);
      t := Advance(plan, Disturbed(s, around.before(phase)), around);
      OutsideWrites(around.before(phase));
      if around.fails(phase).Some? {
        return Some(StepFailed), t;
      }
      var same := InputsUnchanged(plan);
      if !same {
        return Some(ChangedSincePlanning), t;
      }
      stop := None;
    }

    /** Backs up project, scripts and manifest. */
    method BackUp(
        plan: Plan, around: Surroundings,
        ghost s: State, ghost earlier: set<(string, string)>, ghost earlierClaims: set<Claims>)
      returns (ok: bool, ghost t: State)
      requires s.phase.BackingUp? && Shows(s, earlier, earlierClaims)
      modifies this
      ensures Shows(t, earlier, earlierClaims) && Course(plan, s, around) == Course(plan, t, around)
      ensures t.phase == if ok then Remembering else Ended(StepFailed)
    {
      hide Course, BackedUp, SavedClaims, EditedBy, ClaimedBy;
      CourseGoesOn(plan, s, around);
      t := Advance(plan, Disturbed(s, around.before(BackingUp)), around);
      OutsideWrites(around.before(BackingUp));
      if around.fails(BackingUp).Some? {
        return false, t;
      }
      backups := backups + BackedUp(plan, files);
      claimBackups := claimBackups + SavedClaims(claims);
      ok := true;
    }

    /** The snapshot an undo would go back to. */
    method RememberClaims(
        plan: Plan, around: Surroundings,
        ghost s: State, ghost earlier: set<(string, string)>, ghost earlierClaims: set<Claims>)
      returns (previous: Option<Claims>, ghost t: State)
      requires s.phase.Remembering? && Shows(s, earlier, earlierClaims)
      modifies this`files, this`claims
      ensures Shows(t, earlier, earlierClaims) && Course(plan, s, around) == Course(plan, t, around)
      ensures if previous.Some? then t.phase.Replacing? && t.previous == previous.value
              else t.phase == Ended(StepFailed)
    {
      hide Course, BackedUp, SavedClaims, EditedBy, ClaimedBy;
      CourseGoesOn(plan, s, around);
      t := Advance(plan, Disturbed(s, around.before(Remembering)), around);
      OutsideWrites(around.before(Remembering));
      previous := if around.fails(Remembering).Some? then None else Some(claims);
    }

    /** The whole replacement of the claims. */
    method ReplaceClaims(
        plan: Plan, around: Surroundings,
        ghost s: State, ghost earlier: set<(string, string)>, ghost earlierClaims: set<Claims>)
      returns (ok: bool, changed: bool, ghost t: State)
      requires s.phase.Replacing? && Shows(s, earlier, earlierClaims)
      modifies this`files, this`claims
      ensures Shows(t, earlier, earlierClaims) && Course(plan, s, around) == Course(plan, t, around)
      ensures if ok then t.phase.Rechecking? && t.changed == changed && t.previous == s.previous
              else t.phase == Ended(StepFailed)
    {
      hide Course, BackedUp, SavedClaims, EditedBy, ClaimedBy;
      CourseGoesOn(plan, s, around);
      t := Advance(plan, Disturbed(s, around.before(Replacing)), around);
      OutsideWrites(around.before(Replacing));
      if around.fails(Replacing).Some? {
        if around.fails(Replacing).value {
          claims := plan.entries;
        }
        return false, false, t;
      }
      changed := around.rewrites || claims != plan.entries;
      claims := plan.entries;
      ok := true;
    }

    /** The check after the replacement: on to the schema, into the undo, or out where there is nothing to undo. */
    method Recheck(
        plan: Plan, around: Surroundings, changed: bool,
        ghost s: State, ghost earlier: set<(string, string)>, ghost earlierClaims: set<Claims>)
      returns (same: bool, ghost t: State)
      requires s.phase.Rechecking? && s.changed == changed && Shows(s, earlier, earlierClaims)
      modifies this`files, this`claims
      ensures Shows(t, earlier, earlierClaims) && Course(plan, s, around) == Course(plan, t, around)
      ensures t.previous == s.previous
      ensures t.phase == if same then AdvancingSchema else if changed then RollingBack else Ended(DriftUndone)
    {
      hide Course, BackedUp, SavedClaims, InputsAre, EditedBy, ClaimedBy;
      CourseGoesOn(plan, s, around);
      t := Advance(plan, Disturbed(s, around.before(Rechecking)), around);
      OutsideWrites(around.before(Rechecking));
      same := false;
      if around.fails(Rechecking).None? {
        same := InputsUnchanged(plan);
      }
    }

    /** The guarded undo of a replacement that met a drift. */
    method Undo(
        plan: Plan, around: Surroundings, previous: Claims,
        ghost s: State, ghost earlier: set<(string, string)>, ghost earlierClaims: set<Claims>)
      returns (result: Result, ghost t: State)
      requires s.phase.RollingBack? && s.previous == previous && Shows(s, earlier, earlierClaims)
      modifies this`files, this`claims
      ensures Shows(t, earlier, earlierClaims) && Course(plan, s, around) == Course(plan, t, around)
      ensures t.phase == Ended(result)
    {
      hide Course, BackedUp, SavedClaims, EditedBy, ClaimedBy;
      CourseGoesOn(plan, s, around);
      t := Advance(plan, Disturbed(s, around.before(RollingBack)), around);
      OutsideWrites(around.before(RollingBack));
      if around.fails(RollingBack).Some? {
        if around.fails(RollingBack).value && claims == plan.entries {
          claims := previous;
        }
        return DriftUndoIncomplete, t;
      }
      if claims == plan.entries {
        claims := previous;
        return DriftUndone, t;
      }
      result, t := ConfirmUndone(plan, around, previous, t, earlier, earlierClaims);
    }

    /** The swap back found other claims: they count as undone only if they are the remembered ones. */
    method ConfirmUndone(
        plan: Plan, around: Surroundings, previous: Claims,
        ghost s: State, ghost earlier: set<(string, string)>, ghost earlierClaims: set<Claims>)
      returns (result: Result, ghost t: State)
      requires s.phase.ConfirmingRollback? && s.previous == previous && Shows(s, earlier, earlierClaims)
      modifies this`files, this`claims
      ensures Shows(t, earlier, earlierClaims) && Course(plan, s, around) == Course(plan, t, around)
      ensures t.phase == Ended(result)
    {
      hide Course, BackedUp, SavedClaims, EditedBy, ClaimedBy;
      CourseGoesOn(plan, s, around);
      t := Advance(plan, Disturbed(s, around.before(ConfirmingRollback)), around);
      OutsideWrites(around.before(ConfirmingRollback));
      if around.fails(ConfirmingRollback).Some? {
        return DriftUndoIncomplete, t;
      }
      result := if claims == previous then DriftUndone else DriftUndoIncomplete;
    }

    method CommitSchema(
        plan: Plan, around: Surroundings,
        ghost s: State, ghost earlier: set<(string, string)>, ghost earlierClaims: set<Claims>)
      returns (result: Result, ghost t: State)
      requires s.phase.AdvancingSchema? && Shows(s, earlier, earlierClaims)
      modifies this`files, this`claims
      ensures Shows(t, earlier, earlierClaims) && Course(plan, s, around) == Course(plan, t, around)
      ensures t.phase == Ended(result)
    {
      hide Course, BackedUp, SavedClaims, EditedBy, ClaimedBy;
      CourseGoesOn(plan, s, around);
      t := Advance(plan, Disturbed(s, around.before(AdvancingSchema)), around);
      OutsideWrites(around.before(AdvancingSchema));
      result := StepFailed;
      if around.fails(AdvancingSchema).None? || around.fails(AdvancingSchema).value {
        files := files[PROJECT_FILE := plan.advanced];
      }
      if around.fails(AdvancingSchema).None? {
        result := Activated;
      }
    }

    /** The activation ends with the result and leaves the directory that `Course` says. */
    method Activate(plan: Plan, around: Surroundings) returns (result: Result)
      modifies this
      ensures var t := Course(plan, Begin(old(files), old(claims)), around);
              t.phase == Ended(result) && Shows(t, old(backups), old(claimBackups))
    {
      hide Course, Disturbed, Advance;
      ghost var earlier, earlierClaims := backups, claimBackups;
      ghost var s := Begin(files, claims);
      var stop: Option<Result>;
      stop, s := Check(plan, around, Preflight, s, earlier, earlierClaims);
      if stop.None? {
        stop, s := Check(plan, around, Locked, s, earlier, earlierClaims);
      }
      if stop.Some? {
        CourseEnds(plan, s, around);
        return stop.value;
      }
      var ok, changed, same := false, false, false;
      var previous: Option<Claims> := None;
      ok, s := BackUp(plan, around, s, earlier, earlierClaims);
      if ok {
        previous, s := RememberClaims(plan, around, s, earlier, earlierClaims);
      }
      if previous.Some? {
        ok, changed, s := ReplaceClaims(plan, around, s, earlier, earlierClaims);
      }
      if previous.None? || !ok {
        CourseEnds(plan, s, around);
        return StepFailed;
      }
      same, s := Recheck(plan, around, changed, s, earlier, earlierClaims);
      if same {
        result, s := CommitSchema(plan, around, s, earlier, earlierClaims);
      } else if changed {
        result, s := Undo(plan, around, previous.value, s, earlier, earlierClaims);
      } else {
        result := DriftUndone;
      }
      CourseEnds(plan, s, around);
    }
  }
}
