/**
 The recovery counters under interleaving. The receiving thread writes them, the diagnostics
 thread reads them; every atomic load or store, and every step under the error mutex, is a
 step of its own, and the two threads and the shutdown of the node interleave freely.
 */
module RecoveryInterleaving {

  /** Where the receiving thread is. `again` tells a failed reopen from the first error. */
  datatype DriverPc =
    | Receiving
    | MarkRecovering
    | CountError(again: bool)
    | LockError
    | StartWrite
    | FinishWrite
    | UnlockError
    | CheckRetry
    | AnnounceDelay
    | Sleeping
    | Reopening
    | CountReconnect
    | ClearRecovering
    | ClearDelay
    | Stopped

  /** Where the diagnostics thread is: the next load or mutex operation. */
  datatype DiagnosticsPc =
    | LoadLevel
    | LoadState
    | LoadErrors
    | LoadReconnects
    | LoadDelay
    | LockText
    | CopyText
    | UnlockText

  datatype Owner = Free | DriverThread | DiagnosticsThread

  /** The error text: of the error with a given number (0 for none yet), or half written. */
  datatype Text = Whole(number: nat) | Torn

  /** One diagnostics message about the socket. */
  datatype Report = Report(
    levelError: bool,
    stateRecovering: bool,
    errors: nat,
    reconnects: nat,
    delay: nat,
    text: Text)

  datatype State = State(
    ok: bool,
    recovering: bool,
    errors: nat,
    reconnects: nat,
    delay: nat,
    text: Text,
    mutex: Owner,
    driver: DriverPc,
    diagnostics: DiagnosticsPc,
    draft: Report,
    reports: seq<Report>,
    // History, not program state.
    failedReopens: nat)

  const EMPTY_REPORT := Report(false, false, 0, 0, 0, Whole(0))

  ghost predicate Initial(s: State) {
    && s.ok && !s.recovering
    && s.errors == s.reconnects == s.delay == 0
    && s.text == Whole(0) && s.mutex == Free
    && s.driver == Receiving && s.diagnostics == LoadLevel
    && s.reports == [] && s.failedReopens == 0
  }

  /** One step of `receive_udp_packet`. */
  ghost predicate DriverStep(s: State, t: State) {
    match s.driver
    case Receiving =>
      if s.ok then t == s || t == s.(driver := MarkRecovering)
      else t == s.(driver := Stopped)
    case MarkRecovering => t == s.(recovering := true, driver := CountError(false))
    case CountError(_) => t == s.(errors := s.errors + 1, driver := LockError)
    case LockError => s.mutex == Free && t == s.(mutex := DriverThread, driver := StartWrite)
    case StartWrite => t == s.(text := Torn, driver := FinishWrite)
    case FinishWrite => t == s.(text := Whole(s.errors), driver := UnlockError)
    case UnlockError => t == s.(mutex := Free, driver := CheckRetry)
    case CheckRetry => t == s.(driver := if s.ok then AnnounceDelay else Stopped)
    case AnnounceDelay => t.delay > 0 && t == s.(delay := t.delay, driver := Sleeping)
    case Sleeping =>
      if s.ok then t == s || t == s.(driver := Reopening)
      else t == s.(driver := Stopped)
    case Reopening =>
      || t == s.(driver := CountReconnect)
      || t == s.(failedReopens := s.failedReopens + 1, driver := CountError(true))
    case CountReconnect => t == s.(reconnects := s.reconnects + 1, driver := ClearRecovering)
    case ClearRecovering => t == s.(recovering := false, driver := ClearDelay)
    case ClearDelay => t == s.(delay := 0, driver := Receiving)
    case Stopped => t == s
  }

  /** The places at which an error has been counted that is not yet made good. */
  predicate Owing(pc: DriverPc) {
    || pc.LockError? || pc.StartWrite? || pc.FinishWrite? || pc.UnlockError? || pc.CheckRetry?
    || pc.AnnounceDelay? || pc.Sleeping? || pc.Reopening? || pc.CountReconnect?
  }

  /** An error that has been counted is still being recovered from, or was when the node stopped. */
  predicate StillRecovering(s: State) {
    Owing(s.driver) || (s.driver.Stopped? && s.recovering)
  }

  /** Failed reopens, and the error that is being recovered from. */
  function Outstanding(s: State): nat {
    s.failedReopens + if StillRecovering(s) then 1 else 0
  }

  /** One step of `publish_diagnostics`: the loads in program order, then publication. */
  ghost predicate DiagnosticsStep(s: State, t: State) {
    match s.diagnostics
    case LoadLevel => t == s.(draft := s.draft.(levelError := s.recovering), diagnostics := LoadState)
    case LoadState => t == s.(draft := s.draft.(stateRecovering := s.recovering), diagnostics := LoadErrors)
    case LoadErrors =>
      t == s.(draft := s.draft.(errors := s.errors), diagnostics := LoadReconnects)
    case LoadReconnects => t == s.(draft := s.draft.(reconnects := s.reconnects), diagnostics := LoadDelay)
    case LoadDelay => t == s.(draft := s.draft.(delay := s.delay), diagnostics := LockText)
    case LockText => s.mutex == Free && t == s.(mutex := DiagnosticsThread, diagnostics := CopyText)
    case CopyText => t == s.(draft := s.draft.(text := s.text), diagnostics := UnlockText)
    case UnlockText =>
      t == s.(mutex := Free, diagnostics := LoadLevel, reports := s.reports + [s.draft])
  }

  ghost predicate Shutdown(s: State, t: State) {
    t == s.(ok := false)
  }

  ghost predicate Next(s: State, t: State) {
    DriverStep(s, t) || DiagnosticsStep(s, t) || Shutdown(s, t)
  }

  ghost predicate Execution(run: seq<State>) {
    && |run| > 0
    && Initial(run[0])
    && forall i :: 0 <= i < |run| - 1 ==> Next(run[i], run[i + 1])
  }

  // ----- Invariants -----

  predicate Calm(pc: DriverPc) {
    pc.Receiving? || pc.MarkRecovering? || pc.ClearDelay?
  }

  predicate DriverLocked(pc: DriverPc) {
    pc.StartWrite? || pc.FinishWrite? || pc.UnlockError?
  }

  predicate DiagnosticsLocked(pc: DiagnosticsPc) {
    pc.CopyText? || pc.UnlockText?
  }

  /** The books, place by place. */
  ghost predicate Books(s: State) {
    && s.errors == s.reconnects + Outstanding(s)
    && (s.driver != Stopped ==>
          (s.recovering <==> !Calm(s.driver)))
    && (s.driver.Receiving? || s.driver.MarkRecovering? ==> s.delay == 0)
  }

  /** The mutex is held by the thread that is between lock and unlock, and guards the text. */
  ghost predicate Guarded(s: State) {
    && (s.mutex == DriverThread <==> DriverLocked(s.driver))
    && (s.mutex == DiagnosticsThread <==> DiagnosticsLocked(s.diagnostics))
    && (s.text == Torn <==> s.driver == FinishWrite)
    && (s.text.Whole? ==> s.text.number <= s.errors)
  }

  /** The error text of every report is whole, and so is that of the draft about to be published. */
  ghost predicate Drafted(s: State) {
    && (forall i :: 0 <= i < |s.reports| ==> s.reports[i].text.Whole? && s.reports[i].text.number <= s.errors)
    && (s.diagnostics == UnlockText ==> s.draft.text.Whole? && s.draft.text.number <= s.errors)
  }

  ghost predicate Inv(s: State) {
    Books(s) && Guarded(s) && Drafted(s)
  }

  lemma {:induction false} DriverKeepsBooks(s: State, t: State)
    requires Books(s) && DriverStep(s, t)
    ensures Books(t) && s.errors <= t.errors && s.reconnects <= t.reconnects
  {
  }

  lemma {:induction false} DriverKeepsGuarded(s: State, t: State)
    requires Guarded(s) && DriverStep(s, t) && s.errors <= t.errors
    ensures Guarded(t)
  {
  }

  /** The receiving thread touches neither the draft nor the reports, and its counters only grow. */
  lemma {:induction false} DriverKeepsDrafted(s: State, t: State)
    requires Drafted(s) && s.errors <= t.errors
    requires t.diagnostics == s.diagnostics && t.draft == s.draft && t.reports == s.reports
    ensures Drafted(t)
  {
  }

  lemma {:induction false} DriverStepKeeps(s: State, t: State)
    requires Inv(s) && DriverStep(s, t)
    ensures Inv(t)
  {
    DriverKeepsBooks(s, t);
    DriverKeepsGuarded(s, t);
    DriverKeepsDrafted(s, t);
  }

  lemma {:induction false} DiagnosticsStepKeeps(s: State, t: State)
    requires Inv(s) && DiagnosticsStep(s, t)
    ensures Inv(t)
  {
    hide Drafted;
    DiagnosticsKeepsDrafted(s, t);
  }

  lemma {:induction false} DiagnosticsKeepsDrafted(s: State, t: State)
    requires Inv(s) && DiagnosticsStep(s, t)
    ensures Drafted(t)
  {
    hide Books;
  }

  lemma {:induction false} InitialInv(s: State)
    requires Initial(s)
    ensures Inv(s)
  {
  }

  lemma {:induction false} StepKeeps(s: State, t: State)
    requires Inv(s) && Next(s, t)
    ensures Inv(t)
  {
    hide DriverStep, DiagnosticsStep;
    if DriverStep(s, t) {
      DriverStepKeeps(s, t);
    } else if DiagnosticsStep(s, t) {
      DiagnosticsStepKeeps(s, t);
    }
  }

  lemma {:induction false} ExecutionKeeps(run: seq<State>, i: nat)
    requires Execution(run) && i < |run|
    ensures Inv(run[i])
  {
    hide Inv, Next, Initial;
    if i == 0 {
      InitialInv(run[0]);
    } else {
      ExecutionKeeps(run, i - 1);
      assert Next(run[i - 1], run[i - 1 + 1]);
      StepKeeps(run[i - 1], run[i]);
    }
  }

  /**
   Recovery accounting in every reachable state: reconnects never exceed errors, and whenever
   `socket_recovering` reads false, the errors are the reconnects and the failed reopens.
   */
  lemma {:induction false} AccountingHolds(run: seq<State>, i: nat)
    requires Execution(run) && i < |run|
    ensures run[i].reconnects <= run[i].errors
    ensures !run[i].recovering ==> run[i].errors == run[i].reconnects + run[i].failedReopens
    ensures run[i].recovering ==> run[i].reconnects + run[i].failedReopens <= run[i].errors
                                  <= run[i].reconnects + run[i].failedReopens + 1
  {
    ExecutionKeeps(run, i);
  }

  /** The two threads are never in their critical sections at the same time, in any reachable state. */
  lemma {:induction false} MutualExclusion(run: seq<State>, i: nat)
    requires Execution(run) && i < |run|
    ensures !(DriverLocked(run[i].driver) && DiagnosticsLocked(run[i].diagnostics))
  {
    ExecutionKeeps(run, i);
  }

  /** No report ever contains half of an error text, nor that of an error not yet counted. */
  lemma {:induction false} TextIsNeverTorn(run: seq<State>, i: nat, k: nat)
    requires Execution(run) && i < |run| && k < |run[i].reports|
    ensures run[i].reports[k].text.Whole? && run[i].reports[k].text.number <= run[i].errors
  {
    ExecutionKeeps(run, i);
  }

  // ----- What a report shows -----

  /** Step `j` of a run counts a reconnect. */
  predicate CountsReconnect(run: seq<State>, j: nat)
    requires j + 1 < |run|
  {
    run[j].driver == CountReconnect && run[j + 1].driver == ClearRecovering
  }

  /** How many steps from state `a` to state `b` count a reconnect. */
  function Reconnections(run: seq<State>, a: nat, b: nat): nat
    requires a <= b < |run|
  {
    if a == b then 0
    else Reconnections(run, a, b - 1) + if CountsReconnect(run, b - 1) then 1 else 0
  }

  lemma {:induction false} StepCounts(s: State, t: State)
    requires Next(s, t)
    ensures t.reconnects == s.reconnects + if s.driver == CountReconnect && t.driver == ClearRecovering then 1 else 0
  {
  }

  lemma {:induction false} ReconnectionsCounted(run: seq<State>, a: nat, b: nat)
    requires Execution(run) && a <= b < |run|
    ensures run[b].reconnects == run[a].reconnects + Reconnections(run, a, b)
  {
    hide Next, Initial;
    if a < b {
      ReconnectionsCounted(run, a, b - 1);
      assert Next(run[b - 1], run[b - 1 + 1]);
      StepCounts(run[b - 1], run[b]);
    }
  }

  /** The state `a` from which the errors of report `k` are loaded. */
  predicate LoadsErrors(run: seq<State>, a: nat, k: nat, r: Report) {
    && a + 1 < |run|
    && run[a].diagnostics == LoadErrors && run[a + 1].diagnostics == LoadReconnects
    && |run[a].reports| == k
    && r.errors == run[a].errors
  }

  /** The state `b` from which its reconnects are loaded. */
  predicate LoadsReconnects(run: seq<State>, b: nat, k: nat, r: Report) {
    && b + 1 < |run|
    && run[b].diagnostics == LoadReconnects && run[b + 1].diagnostics == LoadDelay
    && |run[b].reports| == k
    && r.reconnects == run[b].reconnects
  }

  /** The states from which the level of report `k` is decided, and its socket state is loaded. */
  predicate LoadsLevel(run: seq<State>, a: nat, k: nat, r: Report) {
    && a + 1 < |run|
    && run[a].diagnostics == LoadLevel && run[a + 1].diagnostics == LoadState
    && |run[a].reports| == k
    && r.levelError == run[a].recovering
  }

  predicate LoadsState(run: seq<State>, b: nat, k: nat, r: Report) {
    && b + 1 < |run|
    && run[b].diagnostics == LoadState && run[b + 1].diagnostics == LoadErrors
    && |run[b].reports| == k
    && r.stateRecovering == run[b].recovering
  }

  /** The diagnostics thread has loaded the errors of its draft, or the reconnects as well. */
  predicate LoadedErrors(pc: DiagnosticsPc) {
    pc.LoadReconnects? || LoadedReconnects(pc)
  }

  predicate LoadedReconnects(pc: DiagnosticsPc) {
    pc.LoadDelay? || pc.LockText? || pc.CopyText? || pc.UnlockText?
  }

  predicate LoadedState(pc: DiagnosticsPc) {
    pc.LoadErrors? || LoadedErrors(pc)
  }

  /** What one step does to the first two entries of the draft. */
  lemma {:induction false} FlagStep(s: State, t: State)
    requires Next(s, t)
    ensures t.diagnostics == LoadState && s.diagnostics != LoadLevel ==>
              s.diagnostics == LoadState && t.draft.levelError == s.draft.levelError && t.reports == s.reports
    ensures t.diagnostics == LoadState && s.diagnostics == LoadLevel ==>
              t.draft.levelError == s.recovering && t.reports == s.reports
    ensures LoadedState(t.diagnostics) && s.diagnostics != LoadState ==>
              && LoadedState(s.diagnostics) && t.reports == s.reports
              && t.draft.levelError == s.draft.levelError && t.draft.stateRecovering == s.draft.stateRecovering
    ensures LoadedState(t.diagnostics) && s.diagnostics == LoadState ==>
              && t.draft.levelError == s.draft.levelError && t.draft.stateRecovering == s.recovering
              && t.diagnostics == LoadErrors && t.reports == s.reports
  {
  }

  /** What one step does to the draft and the reports. */
  lemma {:induction false} DraftStep(s: State, t: State)
    requires Next(s, t)
    ensures LoadedErrors(t.diagnostics) && s.diagnostics != LoadErrors ==>
              LoadedErrors(s.diagnostics) && t.draft.errors == s.draft.errors && t.reports == s.reports
    ensures LoadedErrors(t.diagnostics) && s.diagnostics == LoadErrors ==>
              t.draft.errors == s.errors && t.diagnostics == LoadReconnects && t.reports == s.reports
    ensures LoadedReconnects(t.diagnostics) && s.diagnostics != LoadReconnects ==>
              LoadedReconnects(s.diagnostics) && t.draft.reconnects == s.draft.reconnects && t.reports == s.reports
    ensures LoadedReconnects(t.diagnostics) && s.diagnostics == LoadReconnects ==>
              t.draft.reconnects == s.reconnects && t.diagnostics == LoadDelay && t.reports == s.reports
    ensures t.reports == s.reports || (s.diagnostics == UnlockText && t.reports == s.reports + [s.draft])
  {
  }

  lemma {:induction false} DraftErrors(run: seq<State>, i: nat) returns (a: nat)
    requires Execution(run) && i < |run| && LoadedErrors(run[i].diagnostics)
    ensures a < i && LoadsErrors(run, a, |run[i].reports|, run[i].draft)
  {
    hide Next;
    if i == 0 {
      assert false;
    } else {
      assert Next(run[i - 1], run[i - 1 + 1]);
      DraftStep(run[i - 1], run[i]);
      if run[i - 1].diagnostics == LoadErrors {
        a := i - 1;
      } else {
        a := DraftErrors(run, i - 1);
      }
    }
  }

  lemma {:induction false} DraftReconnects(run: seq<State>, i: nat) returns (a: nat, b: nat)
    requires Execution(run) && i < |run| && LoadedReconnects(run[i].diagnostics)
    ensures a < b < i
    ensures LoadsErrors(run, a, |run[i].reports|, run[i].draft)
    ensures LoadsReconnects(run, b, |run[i].reports|, run[i].draft)
  {
    hide Next;
    if i == 0 {
      assert false;
    } else {
      assert Next(run[i - 1], run[i - 1 + 1]);
      DraftStep(run[i - 1], run[i]);
      if run[i - 1].diagnostics == LoadReconnects {
        b := i - 1;
        a := DraftErrors(run, b);
      } else {
        a, b := DraftReconnects(run, i - 1);
      }
    }
  }

  /** Every published report was loaded in two steps, the errors first. */
  lemma {:induction false} ReportLoads(run: seq<State>, i: nat, k: nat) returns (a: nat, b: nat)
    requires Execution(run) && i < |run| && k < |run[i].reports|
    ensures a < b < i
    ensures LoadsErrors(run, a, k, run[i].reports[k]) && LoadsReconnects(run, b, k, run[i].reports[k])
  {
    hide Next;
    if i == 0 {
      assert false;
    } else {
      assert Next(run[i - 1], run[i - 1 + 1]);
      DraftStep(run[i - 1], run[i]);
      if k < |run[i - 1].reports| {
        a, b := ReportLoads(run, i - 1, k);
      } else {
        a, b := DraftReconnects(run, i - 1);
      }
    }
  }

  /**
   When a published report adds up. Its errors and its reconnects come from two states of the
   run, in this order; it shows no more reconnects than errors if and only if the steps between
   these states count no more reconnects than there were failed reopens at the first of them,
   plus one if an error counted there was still being recovered from.
   */
  lemma {:induction false} ReportAddsUp(run: seq<State>, i: nat, k: nat)
    requires Execution(run) && i < |run| && k < |run[i].reports|
    ensures exists a: nat, b: nat ::
              a < b < i && LoadsErrors(run, a, k, run[i].reports[k]) && LoadsReconnects(run, b, k, run[i].reports[k])
    ensures forall a: nat, b: nat ::
              a < b < i && LoadsErrors(run, a, k, run[i].reports[k]) &&
              LoadsReconnects(run, b, k, run[i].reports[k]) ==>
                (run[i].reports[k].reconnects <= run[i].reports[k].errors <==>
                 Reconnections(run, a, b) <= run[a].failedReopens + if StillRecovering(run[a]) then 1 else 0)
  {
    hide Next, Initial, Guarded, Drafted;
    var a0, b0 := ReportLoads(run, i, k);
    forall a: nat, b: nat |
      a < b < i && LoadsErrors(run, a, k, run[i].reports[k]) && LoadsReconnects(run, b, k, run[i].reports[k])
      ensures run[i].reports[k].reconnects <= run[i].reports[k].errors <==>
              Reconnections(run, a, b) <= run[a].failedReopens + if StillRecovering(run[a]) then 1 else 0
    {
      ReconnectionsCounted(run, a, b);
      ExecutionKeeps(run, a);
    }
  }

  // ----- The level of a report and its socket state -----

  lemma {:induction false} DraftLevel(run: seq<State>, i: nat) returns (a: nat)
    requires Execution(run) && i < |run| && run[i].diagnostics == LoadState
    ensures a < i && LoadsLevel(run, a, |run[i].reports|, run[i].draft)
  {
    hide Next;
    if i == 0 {
      assert false;
    } else {
      assert Next(run[i - 1], run[i - 1 + 1]);
      FlagStep(run[i - 1], run[i]);
      if run[i - 1].diagnostics == LoadLevel {
        a := i - 1;
      } else {
        a := DraftLevel(run, i - 1);
      }
    }
  }

  lemma {:induction false} DraftState(run: seq<State>, i: nat) returns (a: nat, b: nat)
    requires Execution(run) && i < |run| && LoadedState(run[i].diagnostics)
    ensures a < b < i
    ensures LoadsLevel(run, a, |run[i].reports|, run[i].draft)
    ensures LoadsState(run, b, |run[i].reports|, run[i].draft)
  {
    hide Next;
    if i == 0 {
      assert false;
    } else {
      assert Next(run[i - 1], run[i - 1 + 1]);
      FlagStep(run[i - 1], run[i]);
      if run[i - 1].diagnostics == LoadState {
        b := i - 1;
        a := DraftLevel(run, b);
      } else {
        a, b := DraftState(run, i - 1);
      }
    }
  }

  /** The level and the socket state of every report are those of two states of the run. */
  lemma {:induction false} ReportFlags(run: seq<State>, i: nat, k: nat) returns (a: nat, b: nat)
    requires Execution(run) && i < |run| && k < |run[i].reports|
    ensures a < b < i
    ensures LoadsLevel(run, a, k, run[i].reports[k]) && LoadsState(run, b, k, run[i].reports[k])
  {
    hide Next;
    if i == 0 {
      assert false;
    } else {
      assert Next(run[i - 1], run[i - 1 + 1]);
      DraftStep(run[i - 1], run[i]);
      if k < |run[i - 1].reports| {
        a, b := ReportFlags(run, i - 1, k);
      } else {
        a, b := DraftState(run, i - 1);
      }
    }
  }

  /** Step `j` of a run begins a recovery, or ends one. */
  predicate Marks(run: seq<State>, j: nat)
    requires j + 1 < |run|
  {
    run[j].driver == MarkRecovering && run[j + 1].driver == CountError(false)
  }

  predicate Clears(run: seq<State>, j: nat)
    requires j + 1 < |run|
  {
    run[j].driver == ClearRecovering && run[j + 1].driver == ClearDelay
  }

  lemma {:induction false} FlagChanges(run: seq<State>, j: nat)
    requires Execution(run) && j + 1 < |run|
    ensures run[j + 1].recovering == (Marks(run, j) || (run[j].recovering && !Clears(run, j)))
  {
    assert Next(run[j], run[j + 1]);
  }

  /** A recovery ends between two states, and none begins after that. */
  predicate EndsBetween(run: seq<State>, a: nat, b: nat)
    requires a <= b < |run|
  {
    exists c: nat :: a <= c < b && Clears(run, c) && forall d: nat :: c < d < b ==> !Marks(run, d)
  }

  predicate BeginsBetween(run: seq<State>, a: nat, b: nat)
    requires a <= b < |run|
  {
    exists c: nat :: a <= c < b && Marks(run, c) && forall d: nat :: c < d < b ==> !Clears(run, d)
  }

  lemma {:induction false} FlagBetween(run: seq<State>, a: nat, b: nat)
    requires Execution(run) && a <= b < |run|
    ensures run[a].recovering ==> (!run[b].recovering <==> EndsBetween(run, a, b))
    ensures !run[a].recovering ==> (run[b].recovering <==> BeginsBetween(run, a, b))
  {
    hide Execution;
    if a < b {
      FlagBetween(run, a, b - 1);
      FlagChanges(run, b - 1);
      BetweenStep(run, a, b);
    }
  }

  lemma {:induction false} BetweenStep(run: seq<State>, a: nat, b: nat)
    requires a < b < |run|
    ensures EndsBetween(run, a, b) <==> Clears(run, b - 1) || (EndsBetween(run, a, b - 1) && !Marks(run, b - 1))
    ensures BeginsBetween(run, a, b) <==> Marks(run, b - 1) || (BeginsBetween(run, a, b - 1) && !Clears(run, b - 1))
  {
    hide Marks, Clears;
    if EndsBetween(run, a, b - 1) && !Marks(run, b - 1) {
      var c: nat :| a <= c < b - 1 && Clears(run, c) && forall d: nat :: c < d < b - 1 ==> !Marks(run, d);
      assert forall d: nat :: c < d < b ==> !Marks(run, d);
    }
    if BeginsBetween(run, a, b - 1) && !Clears(run, b - 1) {
      var c: nat :| a <= c < b - 1 && Marks(run, c) && forall d: nat :: c < d < b - 1 ==> !Clears(run, d);
      assert forall d: nat :: c < d < b ==> !Clears(run, d);
    }
  }

  /**
   When a report contradicts itself. Its level and its socket state come from two states of the
   run, in this order. It is an error report about a ready socket if and only if a recovery was
   going on at the first and ended, the last thing to happen, before the second; and a report
   without error about a recovering socket if and only if one began so.
   */
  lemma {:induction false} ReportContradicts(run: seq<State>, i: nat, k: nat)
    requires Execution(run) && i < |run| && k < |run[i].reports|
    ensures exists a: nat, b: nat ::
              a < b < i && LoadsLevel(run, a, k, run[i].reports[k]) && LoadsState(run, b, k, run[i].reports[k])
    ensures forall a: nat, b: nat ::
              a < b < i && LoadsLevel(run, a, k, run[i].reports[k]) && LoadsState(run, b, k, run[i].reports[k]) ==>
                var r := run[i].reports[k];
                && (r.levelError && !r.stateRecovering <==> run[a].recovering && EndsBetween(run, a, b))
                && (!r.levelError && r.stateRecovering <==> !run[a].recovering && BeginsBetween(run, a, b))
  {
    hide Execution, EndsBetween, BeginsBetween;
    var a0, b0 := ReportFlags(run, i, k);
    forall a: nat, b: nat |
      a < b < i && LoadsLevel(run, a, k, run[i].reports[k]) && LoadsState(run, b, k, run[i].reports[k])
      ensures var r := run[i].reports[k];
              && (r.levelError && !r.stateRecovering <==> run[a].recovering && EndsBetween(run, a, b))
              && (!r.levelError && r.stateRecovering <==> !run[a].recovering && BeginsBetween(run, a, b))
    {
      FlagBetween(run, a, b);
    }
  }

  // ----- The order of the loads -----

  lemma {:induction false} Extend(run: seq<State>, t: State) returns (longer: seq<State>)
    requires Execution(run) && Next(run[|run| - 1], t)
    ensures Execution(longer) && |longer| == |run| + 1 && longer[|run|] == t
  {
    longer := run + [t];
    forall i | 0 <= i < |longer| - 1
      ensures Next(longer[i], longer[i + 1])
    {
      if i < |run| - 1 {
        assert Next(run[i], run[i + 1]);
      }
    }
  }

  /** The diagnostics thread has loaded the errors, and no error has happened yet. */
  lemma {:induction false} ErrorsLoadedEarly() returns (run: seq<State>, s: State)
    ensures Execution(run) && s == run[|run| - 1]
    ensures s.ok && s.driver == Receiving && s.mutex == Free && s.reports == []
    ensures s.errors == s.reconnects == s.draft.errors == 0
    ensures s.diagnostics == LoadReconnects
  {
    s := State(true, false, 0, 0, 0, Whole(0), Free, Receiving, LoadLevel, EMPTY_REPORT, [], 0);
    run := [s];
    s := s.(diagnostics := LoadState);
    run := Extend(run, s);
    s := s.(diagnostics := LoadErrors);
    run := Extend(run, s);
    s := s.(diagnostics := LoadReconnects);
    run := Extend(run, s);
  }

  /** The receiving thread meets an error and records it. */
  lemma {:induction false} FailOnce(before: seq<State>, s0: State) returns (run: seq<State>, s: State)
    requires Execution(before) && s0 == before[|before| - 1]
    requires s0.ok && s0.driver == Receiving && s0.mutex == Free
    ensures Execution(run) && s == run[|run| - 1]
    ensures s == s0.(recovering := true, errors := s0.errors + 1, text := Whole(s0.errors + 1), driver := CheckRetry)
  {
    run := before;
    s := s0.(driver := MarkRecovering);
    run := Extend(run, s);
    s := s.(recovering := true, driver := CountError(false));
    run := Extend(run, s);
    s := s.(errors := s.errors + 1, driver := LockError);
    run := Extend(run, s);
    s := s.(mutex := DriverThread, driver := StartWrite);
    run := Extend(run, s);
    s := s.(text := Torn, driver := FinishWrite);
    run := Extend(run, s);
    s := s.(text := Whole(s.errors), driver := UnlockError);
    run := Extend(run, s);
    s := s.(mutex := Free, driver := CheckRetry);
    run := Extend(run, s);
  }

  /** Its first reopen succeeds, and the reconnect is counted. */
  lemma {:induction false} ReopenOnce(before: seq<State>, s0: State) returns (run: seq<State>, s: State)
    requires Execution(before) && s0 == before[|before| - 1]
    requires s0.ok && s0.driver == CheckRetry
    ensures Execution(run) && s == run[|run| - 1]
    ensures s == s0.(reconnects := s0.reconnects + 1, delay := 250, driver := ClearRecovering)
  {
    run := before;
    s := s0.(driver := AnnounceDelay);
    run := Extend(run, s);
    s := s.(delay := 250, driver := Sleeping);
    run := Extend(run, s);
    s := s.(driver := Reopening);
    run := Extend(run, s);
    s := s.(driver := CountReconnect);
    run := Extend(run, s);
    s := s.(reconnects := s.reconnects + 1, driver := ClearRecovering);
    run := Extend(run, s);
  }

  /** The diagnostics thread finishes its report undisturbed. */
  lemma {:induction false} FinishReport(before: seq<State>, s0: State) returns (run: seq<State>, s: State)
    requires Execution(before) && s0 == before[|before| - 1]
    requires s0.diagnostics == LoadReconnects && s0.mutex == Free
    ensures Execution(run) && s == run[|run| - 1]
    ensures |s.reports| == |s0.reports| + 1
    ensures s.reports[|s0.reports|].errors == s0.draft.errors
    ensures s.reports[|s0.reports|].reconnects == s0.reconnects
    ensures s.reports[|s0.reports|].levelError == s0.draft.levelError
    ensures s.reports[|s0.reports|].stateRecovering == s0.draft.stateRecovering
  {
    run := before;
    s := s0.(draft := s0.draft.(reconnects := s0.reconnects), diagnostics := LoadDelay);
    run := Extend(run, s);
    s := s.(draft := s.draft.(delay := s.delay), diagnostics := LockText);
    run := Extend(run, s);
    s := s.(mutex := DiagnosticsThread, diagnostics := CopyText);
    run := Extend(run, s);
    s := s.(draft := s.draft.(text := s.text), diagnostics := UnlockText);
    run := Extend(run, s);
    s := s.(mutex := Free, diagnostics := LoadLevel, reports := s.reports + [s.draft]);
    run := Extend(run, s);
  }

  /**
   The shared counters always add up, but a published report need not: the errors are loaded
   before the reconnects, and a whole recovery fits in between. Some run publishes one
   reconnect and no error.
   */
  lemma {:induction false} ReportCanShowMoreReconnectsThanErrors()
    ensures exists run: seq<State> ::
              && Execution(run)
              && |run[|run| - 1].reports| == 1
              && run[|run| - 1].reports[0].errors == 0
              && run[|run| - 1].reports[0].reconnects == 1
  {
    var run, s := ErrorsLoadedEarly();
    run, s := FailOnce(run, s);
    run, s := ReopenOnce(run, s);
    run, s := FinishReport(run, s);
  }

  /** Some run publishes an error report about a ready socket. */
  lemma {:induction false} ReportCanSayErrorAndReady()
    ensures exists run: seq<State> ::
              && Execution(run)
              && |run[|run| - 1].reports| == 1
              && run[|run| - 1].reports[0].levelError && !run[|run| - 1].reports[0].stateRecovering
  {
    var s := State(true, false, 0, 0, 0, Whole(0), Free, Receiving, LoadLevel, EMPTY_REPORT, [], 0);
    var run := [s];
    run, s := FailOnce(run, s);
    run, s := ReopenOnce(run, s);
    run, s := LoadAcrossClear(run, s);
    run, s := FinishReport(run, s);
  }

  /** The recovery ends between the loads of the level and of the socket state. */
  lemma {:induction false} LoadAcrossClear(before: seq<State>, s0: State) returns (run: seq<State>, s: State)
    requires Execution(before) && s0 == before[|before| - 1]
    requires s0.recovering && s0.driver == ClearRecovering && s0.diagnostics == LoadLevel && s0.mutex == Free
    ensures Execution(run) && s == run[|run| - 1]
    ensures s.diagnostics == LoadReconnects && s.mutex == Free && s.reports == s0.reports
    ensures s.draft.levelError && !s.draft.stateRecovering
  {
    run := before;
    s := s0.(draft := s0.draft.(levelError := true), diagnostics := LoadState);
    run := Extend(run, s);
    s := s.(recovering := false, driver := ClearDelay);
    run := Extend(run, s);
    s := s.(draft := s.draft.(stateRecovering := false), diagnostics := LoadErrors);
    run := Extend(run, s);
    s := s.(draft := s.draft.(errors := s.errors), diagnostics := LoadReconnects);
    run := Extend(run, s);
  }
}
