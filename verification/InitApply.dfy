/** The onboarding commit protocol (src/cli/init-apply.ts): one plan carried
    across config.json and the consent rows by a journal, with a crash possible
    after every step and recovery on the next run. */
module InitApply {
  import opened Reading

  // ------------------------------------------------------------------- config.json

  datatype Key = CaptureClaudeCode | CaptureCodex | CaptureOpencode | MemoryPlus | OtherKey(name: string)

  /** A stored value, by what a boolean setting makes of it. */
  datatype Value = Flag(on: bool) | Unusable(json: string)

  type Config = map<Key, Value>

  /** The typed value config.json holds; none when absent or unusable. */
  function Typed(config: Config, key: Key): Option<bool> {
    if key in config && config[key].Flag? then Some(config[key].on) else None
  }

  /** Does any capture tool remain enabled? Each is unless set off. */
  predicate AnyCapture(config: Config) {
    || Typed(config, CaptureClaudeCode) != Some(false)
    || Typed(config, CaptureCodex) != Some(false)
    || Typed(config, CaptureOpencode) != Some(false)
  }

  /** A batch of settings: a value sets the key, none removes it. */
  type Update = map<Key, Option<bool>>

  function Updated(config: Config, update: Update): Config {
    map key | key in config.Keys + update.Keys && (key in update ==> update[key].Some?) ::
      if key in update then Flag(update[key].value) else config[key]
  }

  /** `mergedSettings`: the merged object, or a refusal. An unreadable file is none. */
  function Merged(config: Option<Config>, update: Update): Option<Config> {
    if config.None? || !AnyCapture(Updated(config.value, update)) then None else Some(Updated(config.value, update))
  }

  lemma TypedUpdated(config: Config, update: Update, key: Key)
    ensures Typed(Updated(config, update), key) == if key in update then update[key] else Typed(config, key)
  {
  }

  /** The loop of `mergedSettings`, key by key. */
  method MergeSettings(config: Option<Config>, update: Update) returns (merged: Option<Config>)
    ensures merged == Merged(config, update)
  {
    hide AnyCapture;
    if config.None? {
      return None;
    }
    var merging, left := config.value, update.Keys;
    while left != {}
      invariant left <= update.Keys
      invariant merging == Updated(config.value, map key | key in update.Keys - left :: update[key])
      decreases left
    {
      var key :| key in left;
      if update[key].None? {
        merging := merging - {key};
      } else {
        merging := merging[key := Flag(update[key].value)];
      }
      left := left - {key};
    }
    assert (map key | key in update.Keys - left :: update[key]) == update;
    merged := if AnyCapture(merging) then Some(merging) else None;
  }

  // ------------------------------------------------------------------ consent rows

  datatype RowState = Approved | Denied | Undecided

  datatype RowSource = Discovery | Cli | Grandfathered

  datatype Row = Row(ulid: string, state: RowState, decidedAt: nat, source: RowSource)

  /** The stored row of each physical root. */
  type Rows = map<string, Row>

  function RowAt(rows: Rows, root: string): Option<Row> {
    if root in rows then Some(rows[root]) else None
  }

  /** What a grant or revoke stamps: the row keeps its ulid and its decision
      time strictly increases. */
  function Stamp(existing: Option<Row>, state: RowState, now: nat, ulid: string): Row {
    var after := if existing.Some? then existing.value.decidedAt + 1 else 1;
    Row(if existing.Some? then existing.value.ulid else ulid, state, if now > after then now else after, Cli)
  }

  // ------------------------------------------------------------- plans and journals

  datatype Plan = Plan(settings: map<Key, bool>, revokes: seq<string>, grants: seq<string>)

  datatype Change = Change(root: string, previous: Option<Row>, target: RowState, identity: Option<string>)

  datatype Setting = Setting(previous: Option<bool>, target: bool)

  datatype Journal = Journal(pid: nat, settings: map<Key, Setting>, consent: seq<Change>, backfillRoots: seq<string>)

  /** Both stores and the journal beside config.json. */
  datatype World = World(config: Option<Config>, rows: Rows, journal: Option<Journal>)

  /** Which directory each root names now, if any. */
  type Identities = string -> Option<string>

  function Targets(plan: Plan): Update {
    map key | key in plan.settings :: Some(plan.settings[key])
  }

  function Roots(plan: Plan): seq<string> { plan.revokes + plan.grants }

  function TargetAt(plan: Plan, k: nat): RowState {
    if k < |plan.revokes| then Denied else Approved
  }

  function JournalOf(plan: Plan, config: Config, rows: Rows, identities: Identities, pid: nat): Journal {
    Journal(pid, map key | key in plan.settings :: Setting(Typed(config, key), plan.settings[key]),
            seq(|Roots(plan)|, k requires 0 <= k < |Roots(plan)| =>
              Change(Roots(plan)[k], RowAt(rows, Roots(plan)[k]), TargetAt(plan, k), identities(Roots(plan)[k]))),
            plan.grants)
  }

  const INIT_APPLY_MAX_ROOTS: nat := 1_000
  const INIT_APPLY_JOURNAL_MAX_BYTES: nat := 1_048_576
  const MAX_ROOT_PATH_LENGTH: nat := 4_096

  /** How many bytes a journal takes as published: its JSON text and a newline. */
  type Size = Journal -> nat

  function ApprovedRoots(consent: seq<Change>): seq<string> {
    if consent == [] then []
    else
      var last := consent[|consent| - 1];
      ApprovedRoots(consent[..|consent| - 1]) + (if last.target == Approved then [last.root] else [])
  }

  predicate AcceptsPath(root: string) { 0 < |root| <= MAX_ROOT_PATH_LENGTH }

  /** What `readInitApplyJournal` asks of the file and `validJournal` of its contents:
      not too long, not too many changes, no path too long, each to approve or to deny,
      no root twice, and nothing to import but roots it approves. */
  ghost predicate ValidJournal(journal: Journal, size: Size) {
    && size(journal) <= INIT_APPLY_JOURNAL_MAX_BYTES
    && |journal.consent| <= INIT_APPLY_MAX_ROOTS
    && (forall k | 0 <= k < |journal.consent| :: AcceptsPath(journal.consent[k].root) && journal.consent[k].target != Undecided)
    && (forall i, j | 0 <= i < j < |journal.consent| :: journal.consent[i].root != journal.consent[j].root)
    && |journal.backfillRoots| <= |ApprovedRoots(journal.consent)|
    && (forall root | root in journal.backfillRoots :: root in ApprovedRoots(journal.consent))
  }

  lemma {:induction false} PlanApproves(plan: Plan, consent: seq<Change>, k: nat)
    requires |consent| == |Roots(plan)| && k <= |consent|
    requires forall j | 0 <= j < |consent| :: consent[j].root == Roots(plan)[j] && consent[j].target == TargetAt(plan, j)
    ensures ApprovedRoots(consent[..k]) == if k <= |plan.revokes| then [] else plan.grants[..k - |plan.revokes|]
    decreases k
  {
    if k > 0 {
      PlanApproves(plan, consent, k - 1);
      assert consent[..k][..k - 1] == consent[..k - 1];
    }
  }

  /** No root is planned twice, as two names of one directory would. */
  ghost predicate DistinctRoots(plan: Plan) {
    forall i, j | 0 <= i < j < |Roots(plan)| :: Roots(plan)[i] != Roots(plan)[j]
  }

  /** What a plan's journal must keep to: bounds nothing checks before it is published. */
  ghost predicate WithinBounds(plan: Plan, config: Config, rows: Rows, identities: Identities, pid: nat, size: Size) {
    && |Roots(plan)| <= INIT_APPLY_MAX_ROOTS && DistinctRoots(plan)
    && (forall k | 0 <= k < |Roots(plan)| :: AcceptsPath(Roots(plan)[k]))
    && size(JournalOf(plan, config, rows, identities, pid)) <= INIT_APPLY_JOURNAL_MAX_BYTES
  }

  /** An apply publishes a journal its own recovery accepts exactly when it changes at
      most a thousand roots, none twice, by paths that are not too long, in at most a
      mebibyte. */
  lemma PublishedIsValid(plan: Plan, config: Config, rows: Rows, identities: Identities, pid: nat, size: Size)
    ensures ValidJournal(JournalOf(plan, config, rows, identities, pid), size)
            <==> WithinBounds(plan, config, rows, identities, pid, size)
  {
    hide ApprovedRoots;
    hide AcceptsPath;
    var consent := JournalOf(plan, config, rows, identities, pid).consent;
    PlanApproves(plan, consent, |consent|);
    assert consent[..|consent|] == consent;
    assert plan.grants[..|plan.grants|] == plan.grants;
    assert forall k | 0 <= k < |consent| :: consent[k].root == Roots(plan)[k] && consent[k].target != Undecided;
  }

  // ------------------------------------------------------------------------ recovery

  /** Keys still holding this apply's own target go back to what they held. */
  function Reverting(journal: Journal, config: Config): Update {
    map key | key in journal.settings && Typed(config, key) != journal.settings[key].previous
              && Typed(config, key) == Some(journal.settings[key].target) :: journal.settings[key].previous
  }

  /** Keys someone changed later. */
  function Superseded(journal: Journal, config: Config): set<Key> {
    set key | key in journal.settings && Typed(config, key) != journal.settings[key].previous
              && Typed(config, key) != Some(journal.settings[key].target)
  }

  /** `revertOwnSettings`: the config after it, or none when the write is refused. */
  function Reverted(journal: Journal, config: Config): Option<Config> {
    if Reverting(journal, config) == map[] then Some(config) else Merged(Some(config), Reverting(journal, config))
  }

  datatype Standing = Untouched | Committed | Conflicting

  predicate SameRow(row: Option<Row>, previous: Option<Row>) {
    if row.None? || previous.None? then row.None? && previous.None?
    else && row.value.ulid == previous.value.ulid && row.value.state == previous.value.state
         && row.value.decidedAt == previous.value.decidedAt && row.value.source == previous.value.source
  }

  function StandingOf(change: Change, row: Option<Row>): Standing {
    if SameRow(row, change.previous) || (change.previous.None? && row.Some? && row.value.state == Undecided) then Untouched
    else if row.Some? && row.value.state == change.target && row.value.source == Cli then Committed
    else Conflicting
  }

  function RootsStanding(consent: seq<Change>, rows: Rows, standing: Standing): seq<string> {
    if consent == [] then []
    else
      var last := consent[|consent| - 1];
      RootsStanding(consent[..|consent| - 1], rows, standing)
      + (if StandingOf(last, RowAt(rows, last.root)) == standing then [last.root] else [])
  }

  datatype Recovery =
    | NothingPending
    | Busy(pid: nat)
    | PlanStands(backfill: seq<string>, gaps: seq<string>, superseded: set<Key>)
    | Undone(superseded: set<Key>)
    | Conflict(roots: seq<string>)
    | Stuck
    | Unreadable

  function Identity(consent: seq<Change>, root: string): Option<string> {
    if consent == [] then None
    else if consent[0].root == root then consent[0].identity
    else Identity(consent[1..], root)
  }

  /** Is `root` still exactly the directory the user confirmed? */
  predicate StillConfirmed(journal: Journal, now: Identities, root: string) {
    Identity(journal.consent, root).Some? && now(root) == Identity(journal.consent, root)
  }

  function Select(journal: Journal, now: Identities, roots: seq<string>, confirmed: bool): seq<string> {
    if roots == [] then []
    else
      var last := roots[|roots| - 1];
      Select(journal, now, roots[..|roots| - 1], confirmed) + (if StillConfirmed(journal, now, last) == confirmed then [last] else [])
  }

  predicate SettingsLanded(journal: Journal, config: Config) {
    forall key | key in journal.settings :: Typed(config, key) == Some(journal.settings[key].target)
  }

  /** `recoverInterruptedInitApply`: the world after it, and what it reports.
      `live` says whether the journal's owner still runs. */
  ghost function Recovered(w: World, live: bool, now: Identities, size: Size): (World, Recovery) {
    if w.journal.None? then (w, NothingPending)
    else
      var journal := w.journal.value;
      if !ValidJournal(journal, size) then (w, Unreadable)
      else if live then (w, Busy(journal.pid))
      else if w.config.None? then (w, Unreadable)
      else
        var committed := RootsStanding(journal.consent, w.rows, Committed);
        var untouched := RootsStanding(journal.consent, w.rows, Untouched);
        var conflicting := RootsStanding(journal.consent, w.rows, Conflicting);
        var config, released := w.config.value, w.(journal := None);
        if conflicting != [] || (committed != [] && untouched != []) then (released, Conflict(conflicting + committed))
        else if (if journal.consent != [] then |committed| == |journal.consent| else SettingsLanded(journal, config)) then
          (released, PlanStands(Select(journal, now, journal.backfillRoots, true), Select(journal, now, journal.backfillRoots, false),
                                set key | key in journal.settings && Typed(config, key) != Some(journal.settings[key].target)))
        else
          var reverted := Reverted(journal, config);
          if reverted.None? then (w, Stuck)
          else (released.(config := reverted), Undone(Superseded(journal, config)))
  }

  lemma {:induction false} StandingCounts(consent: seq<Change>, rows: Rows)
    ensures |RootsStanding(consent, rows, Committed)| + |RootsStanding(consent, rows, Untouched)|
            + |RootsStanding(consent, rows, Conflicting)| == |consent|
    decreases |consent|
  {
    if consent != [] {
      StandingCounts(consent[..|consent| - 1], rows);
    }
  }

  /** All the changes stand alike: the other two lists are empty. */
  lemma {:induction false} AllStandAs(consent: seq<Change>, rows: Rows, standing: Standing)
    requires forall k | 0 <= k < |consent| :: StandingOf(consent[k], RowAt(rows, consent[k].root)) == standing
    ensures |RootsStanding(consent, rows, standing)| == |consent|
    ensures forall other | other != standing :: RootsStanding(consent, rows, other) == []
    decreases |consent|
  {
    hide StandingOf;
    if consent != [] {
      AllStandAs(consent[..|consent| - 1], rows, standing);
    }
  }

  /** Recovery under interference. From any later config and consent state it never
      writes consent; a setting changes only if it still held this apply's target
      and then goes back to what it held before; the journal is released unless
      the owner lives or the settings cannot be read or put back; and running it
      again changes nothing more. */
  lemma RecoveryIsSafe(w: World, live: bool, now: Identities, size: Size)
    ensures var (v, report) := Recovered(w, live, now, size);
            && v.rows == w.rows && v.config.Some? == w.config.Some?
            && (forall key | w.config.Some? && Typed(v.config.value, key) != Typed(w.config.value, key) ::
                  && report.Undone? && key in w.journal.value.settings
                  && Typed(w.config.value, key) == Some(w.journal.value.settings[key].target)
                  && Typed(v.config.value, key) == w.journal.value.settings[key].previous)
            && (v.journal.Some? <==> report.Busy? || report.Stuck? || report.Unreadable?)
            && (v.journal.Some? ==> v == w)
            && Recovered(v, live, now, size) == (v, if v.journal.None? then NothingPending else report)
  {
    hide ValidJournal;
    hide AnyCapture;
    hide RootsStanding;
    hide Select;
    hide SettingsLanded;
    var report := Recovered(w, live, now, size).1;
    if report.Undone? {
      forall key ensures Typed(Recovered(w, live, now, size).0.config.value, key) ==
                         if key in Reverting(w.journal.value, w.config.value) then w.journal.value.settings[key].previous
                         else Typed(w.config.value, key)
      {
        TypedUpdated(w.config.value, Reverting(w.journal.value, w.config.value), key);
      }
    }
  }

  /** After an undo every planned key holds its previous value, or one set later. */
  lemma UndoIsComplete(w: World, live: bool, now: Identities, size: Size, key: Key)
    requires Recovered(w, live, now, size).1.Undone? && key in w.journal.value.settings
    ensures var v := Recovered(w, live, now, size).0;
            Typed(v.config.value, key) == (if key in Recovered(w, live, now, size).1.superseded then Typed(w.config.value, key)
                                           else w.journal.value.settings[key].previous)
  {
    hide ValidJournal;
    hide AnyCapture;
    hide RootsStanding;
    hide Select;
    hide SettingsLanded;
    TypedUpdated(w.config.value, Reverting(w.journal.value, w.config.value), key);
  }

  lemma {:induction false} SelectConfirmed(journal: Journal, now: Identities, roots: seq<string>, root: string)
    ensures root in Select(journal, now, roots, true) ==> root in roots && StillConfirmed(journal, now, root)
    ensures root in roots ==> root in Select(journal, now, roots, true) || root in Select(journal, now, roots, false)
    decreases |roots|
  {
    hide StillConfirmed;
    if roots != [] {
      SelectConfirmed(journal, now, roots[..|roots| - 1], root);
    }
  }

  /** The plan stands only when every change was committed, or, without changes,
      every setting landed; only a directory confirmed and still in place is
      imported, and every other approved root is reported. */
  lemma StandingPlan(w: World, live: bool, now: Identities, size: Size, root: string)
    requires Recovered(w, live, now, size).1.PlanStands?
    ensures var journal := w.journal.value;
            && (forall k | 0 <= k < |journal.consent| ::
                  StandingOf(journal.consent[k], RowAt(w.rows, journal.consent[k].root)) == Committed)
            && (journal.consent == [] ==> SettingsLanded(journal, w.config.value))
    ensures var report := Recovered(w, live, now, size).1;
            && (root in report.backfill ==> StillConfirmed(w.journal.value, now, root))
            && (root in w.journal.value.backfillRoots ==> root in report.backfill || root in report.gaps)
  {
    hide ValidJournal;
    hide SettingsLanded;
    hide Select;
    hide StandingOf;
    hide StillConfirmed;
    var journal := w.journal.value;
    StandingCounts(journal.consent, w.rows);
    CommittedAll(journal.consent, w.rows);
    SelectConfirmed(journal, now, journal.backfillRoots, root);
  }

  lemma {:induction false} CommittedAll(consent: seq<Change>, rows: Rows)
    ensures |RootsStanding(consent, rows, Committed)| <= |consent|
    ensures |RootsStanding(consent, rows, Committed)| == |consent| ==>
              forall k | 0 <= k < |consent| :: StandingOf(consent[k], RowAt(rows, consent[k].root)) == Committed
    decreases |consent|
  {
    hide StandingOf;
    if consent != [] {
      CommittedAll(consent[..|consent| - 1], rows);
      forall k | 0 <= k < |consent| - 1 ensures consent[k] == consent[..|consent| - 1][k] {
      }
    }
  }

  ghost predicate AnyStands(consent: seq<Change>, rows: Rows, standing: Standing) {
    exists k :: 0 <= k < |consent| && StandingOf(consent[k], RowAt(rows, consent[k].root)) == standing
  }

  lemma {:induction false} ListedStands(consent: seq<Change>, rows: Rows, standing: Standing)
    ensures RootsStanding(consent, rows, standing) != [] <==> AnyStands(consent, rows, standing)
    decreases |consent|
  {
    hide StandingOf;
    if consent != [] {
      var init := consent[..|consent| - 1];
      ListedStands(init, rows, standing);
      forall k | 0 <= k < |init| ensures init[k] == consent[k] {
      }
      if AnyStands(consent, rows, standing) {
        var k :| 0 <= k < |consent| && StandingOf(consent[k], RowAt(rows, consent[k].root)) == standing;
        assert k < |init| ==> init[k] == consent[k];
      }
    }
  }

  /** What recovery concludes from the consent rows: an undo only when no change was
      committed and none met a newer decision; a conflict exactly when some change met
      a newer decision or only part of them was committed. */
  lemma ConclusionFollowsRows(w: World, live: bool, now: Identities, size: Size)
    ensures var report, journal := Recovered(w, live, now, size).1, w.journal;
            && (report.Undone? || report.Stuck? ==>
                  && !AnyStands(journal.value.consent, w.rows, Committed) && !AnyStands(journal.value.consent, w.rows, Conflicting)
                  && (journal.value.consent == [] ==> !SettingsLanded(journal.value, w.config.value)))
            && (journal.Some? && !report.Busy? && !report.Unreadable? ==>
                  (report.Conflict? <==>
                     || AnyStands(journal.value.consent, w.rows, Conflicting)
                     || (AnyStands(journal.value.consent, w.rows, Committed) && AnyStands(journal.value.consent, w.rows, Untouched))))
  {
    hide StandingOf;
    hide ValidJournal;
    hide Select;
    hide Reverted;
    hide AnyStands;
    hide SettingsLanded;
    if w.journal.Some? {
      var consent := w.journal.value.consent;
      ListedStands(consent, w.rows, Committed);
      ListedStands(consent, w.rows, Untouched);
      ListedStands(consent, w.rows, Conflicting);
      StandingCounts(consent, w.rows);
    }
  }

  // ------------------------------------------------ what recovery concludes, by the rows

  /** The row is the one the journal found, or one nobody has decided where none was. */
  predicate StaysAsFound(change: Change, row: Option<Row>) {
    row == change.previous || (change.previous.None? && row.Some? && row.value.state == Undecided)
  }

  /** The row is another one, and says what the plan says, decided here. */
  predicate DecidedAsPlanned(change: Change, row: Option<Row>) {
    !StaysAsFound(change, row) && row.Some? && row.value.state == change.target && row.value.source == Cli
  }

  ghost predicate AllStay(journal: Journal, rows: Rows) {
    forall k | 0 <= k < |journal.consent| :: StaysAsFound(journal.consent[k], RowAt(rows, journal.consent[k].root))
  }

  ghost predicate AllDecided(journal: Journal, rows: Rows) {
    forall k | 0 <= k < |journal.consent| :: DecidedAsPlanned(journal.consent[k], RowAt(rows, journal.consent[k].root))
  }

  ghost predicate AllLanded(journal: Journal, config: Config) {
    forall key | key in journal.settings :: key in config && config[key] == Flag(journal.settings[key].target)
  }

  lemma StandingByRow(change: Change, row: Option<Row>)
    ensures StandingOf(change, row) == Untouched <==> StaysAsFound(change, row)
    ensures StandingOf(change, row) == Committed <==> DecidedAsPlanned(change, row)
  {
  }

  lemma StandingByRows(journal: Journal, rows: Rows)
    ensures RootsStanding(journal.consent, rows, Committed) == [] && RootsStanding(journal.consent, rows, Conflicting) == []
            <==> AllStay(journal, rows)
    ensures RootsStanding(journal.consent, rows, Untouched) == [] && RootsStanding(journal.consent, rows, Conflicting) == []
            <==> AllDecided(journal, rows)
  {
    hide StandingOf;
    hide StaysAsFound;
    hide DecidedAsPlanned;
    var consent := journal.consent;
    forall k | 0 <= k < |consent|
      ensures StandingOf(consent[k], RowAt(rows, consent[k].root)) == Untouched
              <==> StaysAsFound(consent[k], RowAt(rows, consent[k].root))
      ensures StandingOf(consent[k], RowAt(rows, consent[k].root)) == Committed
              <==> DecidedAsPlanned(consent[k], RowAt(rows, consent[k].root))
    {
      StandingByRow(consent[k], RowAt(rows, consent[k].root));
    }
    ListedStands(consent, rows, Committed);
    ListedStands(consent, rows, Untouched);
    ListedStands(consent, rows, Conflicting);
  }

  /** What recovery reports, of a journal it reads whose owner is gone, is decided by the
      rows' own fields. The plan stands exactly when every row is another one than found
      and says what was planned, decided here, or, without changes, every setting holds
      its target. Nothing was committed exactly when every row is as found. Anything
      else, a newer decision or a part of the plan, is a conflict. */
  lemma RowsDecide(w: World, now: Identities, size: Size)
    requires w.journal.Some? && w.config.Some? && ValidJournal(w.journal.value, size)
    ensures var report, journal := Recovered(w, false, now, size).1, w.journal.value;
            var standing := if journal.consent != [] then AllDecided(journal, w.rows) else AllLanded(journal, w.config.value);
            && (report.PlanStands? <==> standing)
            && (report.Undone? || report.Stuck? <==> AllStay(journal, w.rows) && !standing)
            && (report.Conflict? <==> !AllStay(journal, w.rows) && !standing)
  {
    hide ValidJournal;
    hide StandingOf;
    hide StaysAsFound;
    hide DecidedAsPlanned;
    hide Select;
    hide Reverted;
    hide RootsStanding;
    var journal := w.journal.value;
    StandingByRows(journal, w.rows);
    StandingCounts(journal.consent, w.rows);
    LandedByKey(journal, w.config.value);
  }

  lemma LandedByKey(journal: Journal, config: Config)
    ensures SettingsLanded(journal, config) <==> AllLanded(journal, config)
  {
    forall key | key in journal.settings
      ensures Typed(config, key) == Some(journal.settings[key].target)
              <==> key in config && config[key] == Flag(journal.settings[key].target)
    {
    }
  }

  lemma {:induction false} SelectIs(journal: Journal, now: Identities, roots: seq<string>, confirmed: bool, root: string)
    ensures root in Select(journal, now, roots, confirmed) <==> root in roots && StillConfirmed(journal, now, root) == confirmed
    decreases |roots|
  {
    hide StillConfirmed;
    if roots != [] {
      SelectIs(journal, now, roots[..|roots| - 1], confirmed, root);
    }
  }

  /** The first change of a root says which directory was confirmed. */
  lemma {:induction false} IdentityIs(consent: seq<Change>, k: nat)
    requires k < |consent| && forall i | 0 <= i < k :: consent[i].root != consent[k].root
    ensures Identity(consent, consent[k].root) == consent[k].identity
  {
    if k > 0 {
      IdentityIs(consent[1..], k - 1);
    }
  }

  /** When the plan stands, exactly the roots to import whose directory is still the one
      confirmed are imported, and exactly the others reported; and exactly the keys that
      no longer hold their target are named as superseded. */
  lemma StandingImports(w: World, now: Identities, size: Size, root: string, key: Key)
    requires Recovered(w, false, now, size).1.PlanStands?
    ensures var report, journal := Recovered(w, false, now, size).1, w.journal.value;
            && (root in report.backfill <==>
                  root in journal.backfillRoots
                  && exists k ::
                       0 <= k < |journal.consent| && Confirmed(journal.consent, k, root) && now(root) == journal.consent[k].identity)
            && (root in report.gaps <==> root in journal.backfillRoots && root !in report.backfill)
            && (key in report.superseded <==>
                  key in journal.settings && !(key in w.config.value && w.config.value[key] == Flag(journal.settings[key].target)))
  {
    hide ValidJournal;
    hide StandingOf;
    hide Select;
    hide SettingsLanded;
    var journal := w.journal.value;
    SelectIs(journal, now, journal.backfillRoots, true, root);
    SelectIs(journal, now, journal.backfillRoots, false, root);
    hide Identity;
    if k :| 0 <= k < |journal.consent| && Confirmed(journal.consent, k, root) {
      IdentityIs(journal.consent, k);
    } else if Identity(journal.consent, root).Some? {
      var k := IdentityFrom(journal.consent, root);
    }
  }

  lemma {:induction false} ApprovedBy(consent: seq<Change>, root: string) returns (k: nat)
    requires root in ApprovedRoots(consent)
    ensures k < |consent| && consent[k].root == root && consent[k].target == Approved
    decreases |consent|
  {
    var n := |consent| - 1;
    k := n;
    if !(consent[n].root == root && consent[n].target == Approved) {
      k := ApprovedBy(consent[..n], root);
    }
  }

  /** Nothing is imported but behind a grant that stands, nor more than was granted. */
  lemma ImportsAreGranted(w: World, now: Identities, size: Size, root: string)
    requires Recovered(w, false, now, size).1.PlanStands? && root in Recovered(w, false, now, size).1.backfill
    ensures w.journal.value.consent != [] ==> root in w.rows && w.rows[root].state == Approved && w.rows[root].source == Cli
    ensures w.journal.value.consent != []
    ensures |w.journal.value.backfillRoots| <= |w.journal.value.consent|
  {
    hide StandingOf;
    hide Select;
    hide SettingsLanded;
    var journal := w.journal.value;
    StandingImports(w, now, size, root, MemoryPlus);
    var k := ApprovedBy(journal.consent, root);
    StandingPlan(w, false, now, size, root);
    StandingByRow(journal.consent[k], RowAt(w.rows, root));
    ApprovedAreChanges(journal.consent);
  }

  lemma {:induction false} ApprovedAreChanges(consent: seq<Change>)
    ensures |ApprovedRoots(consent)| <= |consent|
    decreases |consent|
  {
    if consent != [] {
      ApprovedAreChanges(consent[..|consent| - 1]);
    }
  }

  lemma {:induction false} StandingRoot(consent: seq<Change>, rows: Rows, standing: Standing, root: string)
    ensures root in RootsStanding(consent, rows, standing) <==>
              exists k :: 0 <= k < |consent| && consent[k].root == root && StandingOf(consent[k], RowAt(rows, root)) == standing
    decreases |consent|
  {
    hide StandingOf;
    if consent != [] {
      var n := |consent| - 1;
      StandingRoot(consent[..n], rows, standing, root);
      forall k | 0 <= k < n ensures consent[..n][k] == consent[k] {
      }
      assert consent[n].root == root && StandingOf(consent[n], RowAt(rows, root)) == standing ==>
          root in RootsStanding(consent, rows, standing);
    }
  }

  /** A conflict names exactly the roots whose row is not as the plan found it. */
  lemma ConflictNames(w: World, now: Identities, size: Size, root: string)
    requires Recovered(w, false, now, size).1.Conflict?
    ensures root in Recovered(w, false, now, size).1.roots <==>
              exists k :: 0 <= k < |w.journal.value.consent| && w.journal.value.consent[k].root == root
                          && !StaysAsFound(w.journal.value.consent[k], RowAt(w.rows, root))
  {
    hide StandingOf;
    hide StaysAsFound;
    hide Select;
    hide SettingsLanded;
    hide ValidJournal;
    hide RootsStanding;
    var consent := w.journal.value.consent;
    StandingRoot(consent, w.rows, Committed, root);
    StandingRoot(consent, w.rows, Conflicting, root);
    forall k | 0 <= k < |consent|
      ensures !StaysAsFound(consent[k], RowAt(w.rows, root)) <==>
                StandingOf(consent[k], RowAt(w.rows, root)) == Committed || StandingOf(consent[k], RowAt(w.rows, root)) == Conflicting
    {
      StandingByRow(consent[k], RowAt(w.rows, root));
    }
  }

  /** The first change of `root` confirmed a directory. */
  ghost predicate Confirmed(consent: seq<Change>, k: nat, root: string)
    requires k < |consent|
  {
    consent[k].root == root && consent[k].identity.Some? && forall i | 0 <= i < k :: consent[i].root != root
  }

  lemma {:induction false} IdentityFrom(consent: seq<Change>, root: string) returns (k: nat)
    requires Identity(consent, root).Some?
    ensures k < |consent| && Confirmed(consent, k, root)
  {
    if consent[0].root == root {
      k := 0;
    } else {
      k := IdentityFrom(consent[1..], root);
      k := k + 1;
    }
  }

  /** When it is undone, exactly the keys that hold neither their previous value nor the
      target are named as superseded; and it is stuck exactly when some key is to go back
      and no capture tool would remain. */
  lemma UndoneNames(w: World, now: Identities, size: Size, key: Key)
    requires Recovered(w, false, now, size).1.Undone? || Recovered(w, false, now, size).1.Stuck?
    ensures var report, journal, config := Recovered(w, false, now, size).1, w.journal.value, w.config.value;
            && (report.Undone? ==>
                  (key in report.superseded <==>
                     key in journal.settings && Typed(config, key) != journal.settings[key].previous
                     && Typed(config, key) != Some(journal.settings[key].target)))
            && (report.Stuck? <==> ToGoBack(journal, config) && NoneLeft(journal, config))
  {
    hide ValidJournal;
    hide StandingOf;
    hide Select;
    hide SettingsLanded;
    hide RootsStanding;
    var journal, config := w.journal.value, w.config.value;
    forall capture ensures Typed(Updated(config, Reverting(journal, config)), capture) == AfterUndo(journal, config, capture) {
      TypedUpdated(config, Reverting(journal, config), capture);
    }
    if ToGoBack(journal, config) {
      var k :| k in journal.settings && GoesBack(journal, config, k);
      assert k in Reverting(journal, config);
    } else {
      assert Reverting(journal, config) == map[];
    }
  }

  predicate GoesBack(journal: Journal, config: Config, key: Key) {
    key in journal.settings && journal.settings[key].previous != Some(journal.settings[key].target)
    && Typed(config, key) == Some(journal.settings[key].target)
  }

  predicate ToGoBack(journal: Journal, config: Config) { exists key | key in journal.settings :: GoesBack(journal, config, key) }

  function AfterUndo(journal: Journal, config: Config, key: Key): Option<bool> {
    if GoesBack(journal, config, key) then journal.settings[key].previous else Typed(config, key)
  }

  predicate NoneLeft(journal: Journal, config: Config) {
    && AfterUndo(journal, config, CaptureClaudeCode) == Some(false)
    && AfterUndo(journal, config, CaptureCodex) == Some(false)
    && AfterUndo(journal, config, CaptureOpencode) == Some(false)
  }

  /** A batch is refused exactly when the file is unreadable or every capture tool would
      be off; otherwise each of its keys holds what it says and every other what it held. */
  lemma MergeIsExact(config: Option<Config>, update: Update)
    ensures Merged(config, update).None? <==>
              config.None? || forall capture | capture in {CaptureClaudeCode, CaptureCodex, CaptureOpencode} ::
                                if capture in update then update[capture] == Some(false)
                                else capture in config.value && config.value[capture] == Flag(false)
    ensures Merged(config, update).Some? ==>
              forall key ::
                var after := Merged(config, update).value;
                if key in update then (if update[key].Some? then key in after && after[key] == Flag(update[key].value) else key !in after)
                else (key in after <==> key in config.value) && (key in after ==> after[key] == config.value[key])
  {
    if config.Some? {
      TypedUpdated(config.value, update, CaptureClaudeCode);
      TypedUpdated(config.value, update, CaptureCodex);
      TypedUpdated(config.value, update, CaptureOpencode);
    }
  }

  // ----------------------------------------------------------- every point of a crash

  /** Time and new ulids a commit uses. */
  datatype Stamps = Stamps(now: nat, ulids: string -> string)

  /** The rows after the first `n` changes of the consent transaction, each stamped over
      what the ones before it left. */
  function Stamped(plan: Plan, rows: Rows, stamps: Stamps, n: nat): Rows
    requires n <= |Roots(plan)|
  {
    if n == 0 then rows
    else
      var before, root := Stamped(plan, rows, stamps, n - 1), Roots(plan)[n - 1];
      before[root := Stamp(RowAt(before, root), TargetAt(plan, n - 1), stamps.now, stamps.ulids(root))]
  }

  function Published(plan: Plan, w: World, identities: Identities, pid: nat): World
    requires w.config.Some?
  {
    w.(journal := Some(JournalOf(plan, w.config.value, w.rows, identities, pid)))
  }

  function Written(plan: Plan, w: World): World {
    if plan.settings == map[] then w else w.(config := Merged(w.config, Targets(plan)))
  }

  function CommittedRows(plan: Plan, w: World, stamps: Stamps): World {
    w.(rows := Stamped(plan, w.rows, stamps, |Roots(plan)|))
  }

  /** An apply that may begin: no journal, a readable config and settings the
      file accepts. */
  ghost predicate Ready(plan: Plan, w: World) {
    && w.journal.None? && w.config.Some?
    && (plan.settings != map[] ==> Merged(w.config, Targets(plan)).Some?)
  }

  /** Every world an apply alone on the machine can leave behind, stopped after any
      step: untouched, published, settings written, consent committed with the
      journal kept or gone, or its settings put back. */
  ghost predicate StoppedAt(plan: Plan, w0: World, identities: Identities, pid: nat, w: World)
    requires w0.config.Some?
  {
    var p := Published(plan, w0, identities, pid);
    var written := Written(plan, p);
    || w == w0 || w == p || w == written
    || (exists stamps :: w.(journal := None) == CommittedRows(plan, written, stamps).(journal := None)
                         && (w.journal.None? || w.journal == p.journal))
    || (&& written.config.Some? && Reverted(p.journal.value, written.config.value).Some?
        && w.(journal := None) == w0.(config := Reverted(p.journal.value, written.config.value))
        && (w.journal.None? || w.journal == p.journal))
  }

  ghost predicate SameTyped(a: Config, b: Config) {
    forall key :: Typed(a, key) == Typed(b, key)
  }

  /** Exactly what was there before. */
  ghost predicate AsBefore(w0: World, w: World) {
    w0.config.Some? && w.config.Some? && SameTyped(w.config.value, w0.config.value) && w.rows == w0.rows
  }

  /** Everything the user confirmed and nothing else. */
  ghost predicate AsConfirmed(plan: Plan, w0: World, w: World) {
    && w0.config.Some? && w.config.Some?
    && (forall key :: Typed(w.config.value, key) == if key in plan.settings then Some(plan.settings[key]) else Typed(w0.config.value, key))
    && (forall k | 0 <= k < |Roots(plan)| ::
          && Roots(plan)[k] in w.rows
          && var row, previous := w.rows[Roots(plan)[k]], RowAt(w0.rows, Roots(plan)[k]);
          && row.state == TargetAt(plan, k) && row.source == Cli
          && (previous.Some? ==> row.ulid == previous.value.ulid && previous.value.decidedAt < row.decidedAt))
    && (forall root | root !in Roots(plan) :: RowAt(w.rows, root) == RowAt(w0.rows, root))
  }

  ghost predicate Resolved(plan: Plan, w0: World, w: World) {
    w.journal.None? && (AsBefore(w0, w) || AsConfirmed(plan, w0, w))
  }

  /** What makes an apply recoverable: a journal recovery accepts, and nothing of
      consent to commit, nothing of config to put back, or a previous config the
      settings writer would accept again. */
  ghost predicate Recoverable(plan: Plan, w0: World, identities: Identities, pid: nat, size: Size)
    requires w0.config.Some?
  {
    && WithinBounds(plan, w0.config.value, w0.rows, identities, pid, size)
    && (Roots(plan) == [] || plan.settings == map[] || AnyCapture(w0.config.value))
  }

  /** Roots planned twice are planned alike: nothing else can be confirmed of both. */
  ghost predicate Consistent(plan: Plan) {
    forall i, j | 0 <= i < j < |Roots(plan)| && Roots(plan)[i] == Roots(plan)[j] :: TargetAt(plan, i) == TargetAt(plan, j)
  }

  /** A row the transaction has stamped: the same ulid, a later decision. */
  predicate Follows(row: Option<Row>, previous: Option<Row>) {
    && row.Some? && row.value.source == Cli
    && (previous.Some? ==> row.value.ulid == previous.value.ulid && previous.value.decidedAt < row.value.decidedAt)
  }

  lemma StampFollows(existing: Option<Row>, previous: Option<Row>, state: RowState, now: nat, ulid: string)
    requires existing == previous || Follows(existing, previous)
    ensures Follows(Some(Stamp(existing, state, now, ulid)), previous)
  {
  }

  /** A row is stamped with the earliest time, from now on, that is later than its last. */
  lemma StampIsEarliest(existing: Option<Row>, state: RowState, now: nat, ulid: string, time: nat)
    ensures var row := Stamp(existing, state, now, ulid);
            && row.state == state && row.ulid == (if existing.Some? then existing.value.ulid else ulid)
            && row.decidedAt >= now && (existing.Some? ==> row.decidedAt > existing.value.decidedAt)
            && (time >= now && time > (if existing.Some? then existing.value.decidedAt else 0) ==> row.decidedAt <= time)
  {
  }

  lemma {:induction false} StampedElsewhere(plan: Plan, rows: Rows, stamps: Stamps, n: nat, root: string)
    requires n <= |Roots(plan)| && root !in Roots(plan)[..n]
    ensures RowAt(Stamped(plan, rows, stamps, n), root) == RowAt(rows, root)
    decreases n
  {
    if n > 0 {
      assert Roots(plan)[..n] == Roots(plan)[..n - 1] + [Roots(plan)[n - 1]];
      StampedElsewhere(plan, rows, stamps, n - 1, root);
    }
  }

  lemma {:induction false} StampedAt(plan: Plan, rows: Rows, stamps: Stamps, n: nat, k: nat)
    requires k < n <= |Roots(plan)|
    ensures var row := RowAt(Stamped(plan, rows, stamps, n), Roots(plan)[k]);
            Follows(row, RowAt(rows, Roots(plan)[k])) && (Consistent(plan) ==> row.value.state == TargetAt(plan, k))
    decreases n
  {
    hide Consistent;
    hide Follows;
    hide Stamp;
    var before, last := Stamped(plan, rows, stamps, n - 1), Roots(plan)[n - 1];
    if Roots(plan)[k] != last {
      StampedAt(plan, rows, stamps, n - 1, k);
    } else {
      if last in Roots(plan)[..n - 1] {
        var j: nat :| j < n - 1 && Roots(plan)[j] == last;
        StampedAt(plan, rows, stamps, n - 1, j);
      } else {
        StampedElsewhere(plan, rows, stamps, n - 1, last);
      }
      StampFollows(RowAt(before, last), RowAt(rows, last), TargetAt(plan, n - 1), stamps.now, stamps.ulids(last));
      StampState(RowAt(before, last), TargetAt(plan, n - 1), stamps.now, stamps.ulids(last));
      PlannedAlike(plan, k, n - 1);
    }
  }

  lemma StampState(existing: Option<Row>, state: RowState, now: nat, ulid: string)
    ensures Stamp(existing, state, now, ulid).state == state
  {
  }

  lemma PlannedAlike(plan: Plan, k: nat, l: nat)
    requires k <= l < |Roots(plan)| && Roots(plan)[k] == Roots(plan)[l]
    ensures Consistent(plan) ==> TargetAt(plan, k) == TargetAt(plan, l)
  {
  }

  ghost predicate StampedAs(plan: Plan, row: Option<Row>, previous: Option<Row>, k: nat)
    requires k < |Roots(plan)|
  {
    Follows(row, previous) && (Consistent(plan) ==> row.value.state == TargetAt(plan, k))
  }

  lemma StampedIs(plan: Plan, rows: Rows, stamps: Stamps)
    ensures var after := Stamped(plan, rows, stamps, |Roots(plan)|);
            && (forall k | 0 <= k < |Roots(plan)| :: StampedAs(plan, RowAt(after, Roots(plan)[k]), RowAt(rows, Roots(plan)[k]), k))
            && (forall root | root !in Roots(plan) :: RowAt(after, root) == RowAt(rows, root))
  {
    hide Stamped;
    var n := |Roots(plan)|;
    var after := Stamped(plan, rows, stamps, n);
    assert Roots(plan)[..n] == Roots(plan);
    forall k | 0 <= k < n ensures StampedAs(plan, RowAt(after, Roots(plan)[k]), RowAt(rows, Roots(plan)[k]), k) {
      StampedAt(plan, rows, stamps, n, k);
    }
    forall root | root !in Roots(plan) ensures RowAt(after, root) == RowAt(rows, root) {
      StampedElsewhere(plan, rows, stamps, n, root);
    }
  }

  /** Undoing the plan's own settings gives back every typed value. */
  lemma RevertsToPrevious(plan: Plan, w0: World, identities: Identities, pid: nat)
    requires Ready(plan, w0)
    ensures var journal := JournalOf(plan, w0.config.value, w0.rows, identities, pid);
            var config := Written(plan, w0).config.value;
            && SameTyped(Updated(config, Reverting(journal, config)), w0.config.value)
            && (Reverted(journal, config).Some? <==> Reverting(journal, config) == map[] || AnyCapture(w0.config.value))
            && (Reverted(journal, config).Some? ==> SameTyped(Reverted(journal, config).value, w0.config.value))
            && (plan.settings != map[] && Reverting(journal, config) == map[] ==> AnyCapture(w0.config.value))
  {
    hide AnyCapture;
    var journal := JournalOf(plan, w0.config.value, w0.rows, identities, pid);
    var config := Written(plan, w0).config.value;
    var back := Updated(config, Reverting(journal, config));
    forall key ensures Typed(back, key) == Typed(w0.config.value, key) {
      TypedUpdated(w0.config.value, Targets(plan), key);
      TypedUpdated(config, Reverting(journal, config), key);
    }
    SameCaptures(back, w0.config.value);
    if Reverting(journal, config) == map[] {
      assert back == config;
    }
  }

  lemma SameCaptures(a: Config, b: Config)
    requires SameTyped(a, b)
    ensures AnyCapture(a) == AnyCapture(b)
  {
  }

  /** Before the consent transaction every change still stands untouched. */
  lemma BeforeCommit(plan: Plan, w0: World, identities: Identities, pid: nat)
    requires w0.config.Some?
    ensures var consent := JournalOf(plan, w0.config.value, w0.rows, identities, pid).consent;
            && |consent| == |Roots(plan)| && |RootsStanding(consent, w0.rows, Untouched)| == |consent|
            && RootsStanding(consent, w0.rows, Committed) == [] && RootsStanding(consent, w0.rows, Conflicting) == []
  {
    var consent := JournalOf(plan, w0.config.value, w0.rows, identities, pid).consent;
    AllStandAs(consent, w0.rows, Untouched);
  }

  /** After it every change stands committed. */
  lemma AfterCommit(plan: Plan, w0: World, identities: Identities, pid: nat, stamps: Stamps)
    requires w0.config.Some? && Consistent(plan)
    ensures var consent := JournalOf(plan, w0.config.value, w0.rows, identities, pid).consent;
            var rows := Stamped(plan, w0.rows, stamps, |Roots(plan)|);
            && |consent| == |Roots(plan)| && |RootsStanding(consent, rows, Committed)| == |consent|
            && RootsStanding(consent, rows, Untouched) == [] && RootsStanding(consent, rows, Conflicting) == []
  {
    hide Consistent;
    hide Stamped;
    var consent := JournalOf(plan, w0.config.value, w0.rows, identities, pid).consent;
    var rows := Stamped(plan, w0.rows, stamps, |Roots(plan)|);
    StampedIs(plan, w0.rows, stamps);
    forall k | 0 <= k < |consent| ensures StandingOf(consent[k], RowAt(rows, consent[k].root)) == Committed {
      assert StampedAs(plan, RowAt(rows, Roots(plan)[k]), RowAt(w0.rows, Roots(plan)[k]), k);
    }
    AllStandAs(consent, rows, Committed);
  }

  /** Once committed, everything is as confirmed just when the plan is consistent. */
  lemma CommittedIsConfirmed(plan: Plan, w0: World, w: World, stamps: Stamps)
    requires Ready(plan, w0) && w.config == Written(plan, w0).config
    requires w.rows == Stamped(plan, w0.rows, stamps, |Roots(plan)|)
    ensures AsConfirmed(plan, w0, w) <==> Consistent(plan)
  {
    hide AnyCapture;
    hide Stamped;
    var n := |Roots(plan)|;
    StampedIs(plan, w0.rows, stamps);
    assert Roots(plan)[..n] == Roots(plan);
    forall k | 0 <= k < n ensures StampedAs(plan, RowAt(w.rows, Roots(plan)[k]), RowAt(w0.rows, Roots(plan)[k]), k) {
    }
    forall key
      ensures Typed(w.config.value, key) == if key in plan.settings then Some(plan.settings[key]) else Typed(w0.config.value, key)
    {
      TypedUpdated(w0.config.value, Targets(plan), key);
    }
  }

  /** Recovery of an apply stopped before its commit, with `config` still typed as
      before: nothing to put back. */
  lemma ResolvesUnwritten(plan: Plan, w0: World, identities: Identities, pid: nat, config: Config, now: Identities, size: Size)
    requires Ready(plan, w0) && SameTyped(config, w0.config.value)
    requires WithinBounds(plan, w0.config.value, w0.rows, identities, pid, size)
    ensures var journal := JournalOf(plan, w0.config.value, w0.rows, identities, pid);
            Resolved(plan, w0, Recovered(World(Some(config), w0.rows, Some(journal)), false, now, size).0)
  {
    hide AnyCapture;
    hide RootsStanding;
    hide Select;
    var journal := JournalOf(plan, w0.config.value, w0.rows, identities, pid);
    hide ValidJournal;
    PublishedIsValid(plan, w0.config.value, w0.rows, identities, pid, size);
    BeforeCommit(plan, w0, identities, pid);
    assert Reverting(journal, config) == map[];
  }

  /** With the settings written and consent not: put back, unless there was none to
      commit. */
  lemma ResolvesWritten(plan: Plan, w0: World, identities: Identities, pid: nat, now: Identities, size: Size)
    requires Ready(plan, w0)
    ensures var w := Written(plan, Published(plan, w0, identities, pid));
            if Recoverable(plan, w0, identities, pid, size) then Resolved(plan, w0, Recovered(w, false, now, size).0)
            else Recovered(w, false, now, size)
                 == (w, if WithinBounds(plan, w0.config.value, w0.rows, identities, pid, size) then Stuck else Unreadable)
  {
    hide RootsStanding;
    hide Select;
    hide ValidJournal;
    PublishedIsValid(plan, w0.config.value, w0.rows, identities, pid, size);
    var journal := JournalOf(plan, w0.config.value, w0.rows, identities, pid);
    var w := Written(plan, Published(plan, w0, identities, pid));
    BeforeCommit(plan, w0, identities, pid);
    RevertsToPrevious(plan, w0, identities, pid);
    if Roots(plan) == [] {
      WrittenLands(plan, w0, identities, pid);
      CommittedIsConfirmed(plan, w0, w, Stamps(0, root => root));
    } else if plan.settings == map[] {
      assert Reverting(journal, w.config.value) == map[];
    }
  }

  lemma WrittenLands(plan: Plan, w0: World, identities: Identities, pid: nat)
    requires Ready(plan, w0)
    ensures SettingsLanded(JournalOf(plan, w0.config.value, w0.rows, identities, pid), Written(plan, w0).config.value)
  {
    hide AnyCapture;
    forall key | key in plan.settings ensures Typed(Written(plan, w0).config.value, key) == Some(plan.settings[key]) {
      TypedUpdated(w0.config.value, Targets(plan), key);
    }
  }

  lemma ResolvesCommitted(plan: Plan, w0: World, identities: Identities, pid: nat, stamps: Stamps, now: Identities, size: Size)
    requires Ready(plan, w0) && WithinBounds(plan, w0.config.value, w0.rows, identities, pid, size)
    ensures var w := CommittedRows(plan, Written(plan, Published(plan, w0, identities, pid)), stamps);
            && Resolved(plan, w0, Recovered(w, false, now, size).0)
            && Resolved(plan, w0, Recovered(w.(journal := None), false, now, size).0)
  {
    hide AnyCapture;
    hide RootsStanding;
    hide Select;
    hide Stamped;
    hide AsConfirmed;
    hide ValidJournal;
    PublishedIsValid(plan, w0.config.value, w0.rows, identities, pid, size);
    var w := CommittedRows(plan, Written(plan, Published(plan, w0, identities, pid)), stamps);
    assert w.config.Some?;
    AfterCommit(plan, w0, identities, pid, stamps);
    CommittedIsConfirmed(plan, w0, w.(journal := None), stamps);
    if Roots(plan) == [] {
      WrittenLands(plan, w0, identities, pid);
    }
  }

  lemma StopResolves(plan: Plan, w0: World, identities: Identities, pid: nat, w: World, now: Identities, size: Size)
    requires Ready(plan, w0) && Recoverable(plan, w0, identities, pid, size) && StoppedAt(plan, w0, identities, pid, w)
    ensures Resolved(plan, w0, Recovered(w, false, now, size).0)
  {
    hide Recovered;
    hide Reverted;
    hide AnyCapture;
    hide Stamped;
    hide Merged;
    hide DistinctRoots;
    var p := Published(plan, w0, identities, pid);
    var written := Written(plan, p);
    if w == w0 {
      NothingToResolve(plan, w0, w, now, size);
    } else if w == p {
      ResolvesUnwritten(plan, w0, identities, pid, w0.config.value, now, size);
    } else if w == written {
      ResolvesWritten(plan, w0, identities, pid, now, size);
    } else if stamps :| w.(journal := None) == CommittedRows(plan, written, stamps).(journal := None)
                        && (w.journal.None? || w.journal == p.journal) {
      ResolvesCommitted(plan, w0, identities, pid, stamps, now, size);
      assert w == CommittedRows(plan, written, stamps) || w == CommittedRows(plan, written, stamps).(journal := None);
    } else {
      var config := Reverted(p.journal.value, written.config.value).value;
      RevertsToPrevious(plan, w0, identities, pid);
      assert SameTyped(config, w0.config.value);
      if w.journal.None? {
        NothingToResolve(plan, w0, w, now, size);
      } else {
        ResolvesUnwritten(plan, w0, identities, pid, config, now, size);
        assert w == World(Some(config), w0.rows, p.journal);
      }
    }
  }

  lemma NothingToResolve(plan: Plan, w0: World, w: World, now: Identities, size: Size)
    requires w.journal.None? && AsBefore(w0, w)
    ensures Resolved(plan, w0, Recovered(w, false, now, size).0)
  {
  }

  /** Crash atomicity. With no other writer, stopping an apply after any step and
      recovering leaves everything confirmed or exactly what was there before, for
      every step, if and only if the plan's journal keeps within the bounds recovery
      reads it by, and it leaves one store alone or found some capture tool enabled: a
      config with every capture explicitly off is one the settings writer refuses to
      put back. */
  lemma CrashAtomicity(plan: Plan, w0: World, identities: Identities, pid: nat, now: Identities, size: Size)
    requires Ready(plan, w0)
    ensures (forall w | StoppedAt(plan, w0, identities, pid, w) :: Resolved(plan, w0, Recovered(w, false, now, size).0))
            <==> Recoverable(plan, w0, identities, pid, size)
  {
    hide Recovered;
    hide Resolved;
    hide DistinctRoots;
    hide Recoverable;
    hide Merged;
    if Recoverable(plan, w0, identities, pid, size) {
      forall w | StoppedAt(plan, w0, identities, pid, w) ensures Resolved(plan, w0, Recovered(w, false, now, size).0) {
        StopResolves(plan, w0, identities, pid, w, now, size);
      }
    } else {
      var w := Written(plan, Published(plan, w0, identities, pid));
      ResolvesWritten(plan, w0, identities, pid, now, size);
      assert StoppedAt(plan, w0, identities, pid, w);
      assert !Resolved(plan, w0, w) by { Unresolved(plan, w0, w); }
    }
  }

  lemma Unresolved(plan: Plan, w0: World, w: World)
    requires w.journal.Some?
    ensures !Resolved(plan, w0, w)
  {
  }

  /** The one input family that stays stuck, as a concrete world: every capture set
      off, and a plan that turns one on and revokes a root. */
  lemma StuckExample(now: Identities, size: Size)
    ensures var off := map[CaptureClaudeCode := Flag(false), CaptureCodex := Flag(false), CaptureOpencode := Flag(false)];
            var plan, w0 := Plan(map[CaptureCodex := true], ["/work"], []), World(Some(off), map[], None);
            var w := Written(plan, Published(plan, w0, now, 7));
            && Ready(plan, w0) && StoppedAt(plan, w0, now, 7, w)
            && (size(JournalOf(plan, off, map[], now, 7)) <= INIT_APPLY_JOURNAL_MAX_BYTES ==>
                  Recovered(w, false, now, size) == (w, Stuck))
  {
    var off := map[CaptureClaudeCode := Flag(false), CaptureCodex := Flag(false), CaptureOpencode := Flag(false)];
    var plan, w0 := Plan(map[CaptureCodex := true], ["/work"], []), World(Some(off), map[], None);
    TypedUpdated(off, Targets(plan), CaptureCodex);
    assert Roots(plan) == ["/work"];
    ResolvesWritten(plan, w0, now, 7, now, size);
  }

  // ------------------------------------------------------------ journals too long

  function PathChars(roots: seq<string>): nat {
    if roots == [] then 0 else PathChars(roots[..|roots| - 1]) + |roots[|roots| - 1]|
  }

  function ChangedRoots(consent: seq<Change>): seq<string> {
    seq(|consent|, k requires 0 <= k < |consent| => consent[k].root)
  }

  /** A journal writes out each path it names: as a change's root, and to import. */
  predicate WritesPaths(journal: Journal, size: Size) {
    size(journal) >= PathChars(ChangedRoots(journal.consent)) + PathChars(journal.backfillRoots)
  }

  lemma {:induction false} PathCharsJoin(a: seq<string>, b: seq<string>)
    ensures PathChars(a + b) == PathChars(a) + PathChars(b)
    decreases |b|
  {
    if b == [] {
      assert a + b == a;
    } else {
      assert (a + b)[..|a + b| - 1] == a + b[..|b| - 1];
      PathCharsJoin(a, b[..|b| - 1]);
    }
  }

  /** A granted path is written twice: with more than half a mebibyte of them, recovery
      reads no journal of the plan's. */
  lemma LongPathsOverflow(plan: Plan, w0: World, identities: Identities, pid: nat, size: Size)
    requires w0.config.Some? && WritesPaths(JournalOf(plan, w0.config.value, w0.rows, identities, pid), size)
    requires 2 * PathChars(plan.grants) > INIT_APPLY_JOURNAL_MAX_BYTES
    ensures !Recoverable(plan, w0, identities, pid, size)
  {
    var consent := JournalOf(plan, w0.config.value, w0.rows, identities, pid).consent;
    assert ChangedRoots(consent) == Roots(plan);
    PathCharsJoin(plan.revokes, plan.grants);
  }

  /** "/aaa", with a "b" in one place. */
  function LongPath(k: nat): string { "/" + seq(4_000, i => if i == k then 'b' else 'a') }

  function LongPaths(n: nat): seq<string> { seq(n, k requires 0 <= k < n => LongPath(k)) }

  lemma {:induction false} LongPathChars(n: nat)
    ensures PathChars(LongPaths(n)) == 4_001 * n
  {
    if n > 0 {
      LongPathChars(n - 1);
      assert LongPaths(n)[..n - 1] == LongPaths(n - 1);
    }
  }

  lemma LongPathsDiffer(i: nat, j: nat)
    requires i < j < 4_000
    ensures LongPath(i) != LongPath(j)
  {
    assert LongPath(i)[i + 1] != LongPath(j)[i + 1];
  }

  function LongPlan(): Plan { Plan(map[], [], LongPaths(200)) }

  lemma LongPlanIsPlain()
    ensures Roots(LongPlan()) == LongPaths(200) && |LongPaths(200)| == 200 && DistinctRoots(LongPlan())
    ensures forall k | 0 <= k < |Roots(LongPlan())| :: AcceptsPath(Roots(LongPlan())[k])
  {
    assert Roots(LongPlan()) == LongPaths(200);
    forall i, j | 0 <= i < j < 200 ensures Roots(LongPlan())[i] != Roots(LongPlan())[j] {
      LongPathsDiffer(i, j);
    }
  }

  lemma PublishedIsAStop(plan: Plan, w0: World, identities: Identities, pid: nat)
    requires w0.config.Some?
    ensures StoppedAt(plan, w0, identities, pid, Published(plan, w0, identities, pid))
  {
  }

  lemma OutOfBounds(plan: Plan, w0: World, identities: Identities, pid: nat, now: Identities, size: Size)
    requires w0.config.Some? && !WithinBounds(plan, w0.config.value, w0.rows, identities, pid, size)
    ensures var p := Published(plan, w0, identities, pid); Recovered(p, false, now, size) == (p, Unreadable)
  {
    hide ValidJournal;
    hide WithinBounds;
    PublishedIsValid(plan, w0.config.value, w0.rows, identities, pid, size);
  }

  /** Within a thousand roots, none twice, each path accepted and every capture enabled,
      200 grants of long paths publish a journal that recovery refuses to read, for ever. */
  lemma OverlongJournalExample(now: Identities, size: Size)
    requires WritesPaths(JournalOf(LongPlan(), map[], map[], now, 7), size)
    ensures var plan, w0 := LongPlan(), World(Some(map[]), map[], None);
            var w := Published(plan, w0, now, 7);
            && Ready(plan, w0) && |Roots(plan)| <= INIT_APPLY_MAX_ROOTS && DistinctRoots(plan) && AnyCapture(w0.config.value)
            && (forall k | 0 <= k < |Roots(plan)| :: AcceptsPath(Roots(plan)[k]))
            && StoppedAt(plan, w0, now, 7, w) && Recovered(w, false, now, size) == (w, Unreadable)
  {
    hide LongPath;
    hide LongPaths;
    hide PathChars;
    hide WritesPaths;
    hide AcceptsPath;
    var w0 := World(Some(map[]), map[], None);
    LongPlanIsPlain();
    LongPathChars(200);
    hide StoppedAt;
    hide Recovered;
    hide DistinctRoots;
    LongPathsOverflow(LongPlan(), w0, now, 7, size);
    PublishedIsAStop(LongPlan(), w0, now, 7);
    OutOfBounds(LongPlan(), w0, now, 7, now, size);
  }

  /** Two names of one directory, one a link to the other, granted together: the plan
      names its canonical root twice and, however short its journal, recovery refuses to
      read it. */
  lemma SharedRootExample(now: Identities, size: Size)
    ensures var plan, w0 := Plan(map[CaptureCodex := true], [], ["/home/u/work", "/home/u/work"]), World(Some(map[]), map[], None);
            var w := Published(plan, w0, now, 7);
            && Ready(plan, w0) && Consistent(plan) && AnyCapture(w0.config.value)
            && StoppedAt(plan, w0, now, 7, w) && Recovered(w, false, now, size) == (w, Unreadable) && !Resolved(plan, w0, w)
  {
    var plan, w0 := Plan(map[CaptureCodex := true], [], ["/home/u/work", "/home/u/work"]), World(Some(map[]), map[], None);
    TypedUpdated(map[], Targets(plan), CaptureCodex);
    assert Roots(plan)[0] == Roots(plan)[1];
    hide StoppedAt;
    hide Recovered;
    PublishedIsAStop(plan, w0, now, 7);
    OutOfBounds(plan, w0, now, 7, now, size);
  }

  // -------------------------------------------------------- recovery stopped as well

  /** The world a recovery leaves that stops between putting the settings back and
      letting go of the journal. */
  ghost function PutBack(w: World, now: Identities, size: Size): World {
    if Recovered(w, false, now, size).1.Undone? then Recovered(w, false, now, size).0.(journal := w.journal) else w
  }

  lemma NothingReverts(plan: Plan, w0: World, identities: Identities, pid: nat, config: Config)
    requires w0.config.Some? && SameTyped(config, w0.config.value)
    ensures Reverted(JournalOf(plan, w0.config.value, w0.rows, identities, pid), config) == Some(config)
  {
    assert Reverting(JournalOf(plan, w0.config.value, w0.rows, identities, pid), config) == map[];
  }

  lemma CommittedIsNotUndone(plan: Plan, w0: World, identities: Identities, pid: nat, stamps: Stamps, w: World,
                             now: Identities, size: Size)
    requires Ready(plan, w0) && w == CommittedRows(plan, Written(plan, Published(plan, w0, identities, pid)), stamps)
    ensures !Recovered(w, false, now, size).1.Undone?
  {
    hide AnyCapture;
    hide RootsStanding;
    hide Select;
    hide Stamped;
    hide ValidJournal;
    hide Reverted;
    PublishedIsValid(plan, w0.config.value, w0.rows, identities, pid, size);
    if DistinctRoots(plan) {
      AfterCommit(plan, w0, identities, pid, stamps);
      if Roots(plan) == [] {
        WrittenLands(plan, w0, identities, pid);
      }
    }
  }

  lemma PutsBack(w: World, now: Identities, size: Size)
    requires w.journal.Some? && w.config.Some?
    ensures PutBack(w, now, size) == w
            || (Reverted(w.journal.value, w.config.value).Some?
                && PutBack(w, now, size) == w.(config := Reverted(w.journal.value, w.config.value)))
  {
    hide ValidJournal;
    hide RootsStanding;
    hide Select;
    hide SettingsLanded;
    hide Reverted;
  }

  /** A recovery stopped there leaves one of the worlds the apply itself could have. */
  lemma RecoveryMayStop(plan: Plan, w0: World, identities: Identities, pid: nat, w: World, now: Identities, size: Size)
    requires Ready(plan, w0) && StoppedAt(plan, w0, identities, pid, w)
    ensures StoppedAt(plan, w0, identities, pid, PutBack(w, now, size))
  {
    hide Stamped;
    hide DistinctRoots;
    hide Merged;
    hide Reverted;
    hide Recovered;
    if PutBack(w, now, size) != w {
      assert Recovered(w, false, now, size).1.Undone?;
      UndoneHasBoth(w, now, size);
      var p := Published(plan, w0, identities, pid);
      var written := Written(plan, p);
      var journal := p.journal.value;
      PutsBack(w, now, size);
      RevertsToPrevious(plan, w0, identities, pid);
      NothingReverts(plan, w0, identities, pid, w0.config.value);
      if stamps :| w.(journal := None) == CommittedRows(plan, written, stamps).(journal := None) {
        assert w.journal == p.journal ==> w == CommittedRows(plan, written, stamps);
        CommittedIsNotUndone(plan, w0, identities, pid, stamps, CommittedRows(plan, written, stamps), now, size);
      } else if w != written && w != p {
        NothingReverts(plan, w0, identities, pid, w.config.value);
      }
    }
  }

  lemma UndoneHasBoth(w: World, now: Identities, size: Size)
    requires Recovered(w, false, now, size).1.Undone?
    ensures w.journal.Some? && w.config.Some?
  {
    hide ValidJournal;
    hide RootsStanding;
    hide Select;
    hide SettingsLanded;
    hide Reverted;
  }

  ghost function PutBacks(w: World, nows: seq<Identities>, size: Size): World
    decreases |nows|
  {
    if nows == [] then w else PutBacks(PutBack(w, nows[0], size), nows[1..], size)
  }

  /** However often recovery itself is stopped before it lets go of the journal, the next
      one still resolves what a recoverable apply left. */
  lemma {:induction false} StoppedRecoveriesResolve(plan: Plan, w0: World, identities: Identities, pid: nat, w: World,
                                                    nows: seq<Identities>, now: Identities, size: Size)
    requires Ready(plan, w0) && Recoverable(plan, w0, identities, pid, size) && StoppedAt(plan, w0, identities, pid, w)
    ensures Resolved(plan, w0, Recovered(PutBacks(w, nows, size), false, now, size).0)
    decreases |nows|
  {
    hide StoppedAt;
    hide Recovered;
    hide Resolved;
    hide Recoverable;
    hide PutBack;
    if nows == [] {
      StopResolves(plan, w0, identities, pid, w, now, size);
    } else {
      RecoveryMayStop(plan, w0, identities, pid, w, nows[0], size);
      StoppedRecoveriesResolve(plan, w0, identities, pid, PutBack(w, nows[0], size), nows[1..], now, size);
    }
  }

  // ------------------------------------------------------------ what is imported then

  function Keeping(roots: seq<string>, keep: string -> bool): seq<string> {
    if roots == [] then []
    else
      var last := roots[|roots| - 1];
      Keeping(roots[..|roots| - 1], keep) + if keep(last) then [last] else []
  }

  lemma {:induction false} SelectKeeps(journal: Journal, now: Identities, roots: seq<string>, confirmed: bool, keep: string -> bool)
    requires forall root | root in roots :: keep(root) <==> StillConfirmed(journal, now, root) == confirmed
    ensures Select(journal, now, roots, confirmed) == Keeping(roots, keep)
    decreases |roots|
  {
    hide StillConfirmed;
    if roots != [] {
      SelectKeeps(journal, now, roots[..|roots| - 1], confirmed, keep);
    }
  }

  lemma PlannedIdentity(plan: Plan, w0: World, identities: Identities, pid: nat, root: string)
    requires w0.config.Some? && DistinctRoots(plan) && root in plan.grants
    ensures Identity(JournalOf(plan, w0.config.value, w0.rows, identities, pid).consent, root) == identities(root)
  {
    var consent := JournalOf(plan, w0.config.value, w0.rows, identities, pid).consent;
    var g :| 0 <= g < |plan.grants| && plan.grants[g] == root;
    var k := |plan.revokes| + g;
    assert Roots(plan)[k] == root;
    forall i | 0 <= i < k ensures consent[i].root != root {
      assert Roots(plan)[i] != Roots(plan)[k];
    }
    IdentityIs(consent, k);
  }

  /** An apply stopped between its commit and its release is reported as standing, and
      its grants are imported, in order: those whose directory is the one the preview
      found. */
  lemma CommittedImports(plan: Plan, w0: World, identities: Identities, pid: nat, stamps: Stamps, now: Identities, size: Size)
    requires Ready(plan, w0) && WithinBounds(plan, w0.config.value, w0.rows, identities, pid, size)
    ensures var w := CommittedRows(plan, Written(plan, Published(plan, w0, identities, pid)), stamps);
            var there: string -> bool := root => identities(root).Some? && now(root) == identities(root);
            Recovered(w, false, now, size).1
            == PlanStands(Keeping(plan.grants, there), Keeping(plan.grants, root => !there(root)), {})
  {
    hide AnyCapture;
    hide RootsStanding;
    hide Stamped;
    hide ValidJournal;
    hide Merged;
    hide Select;
    var w := CommittedRows(plan, Written(plan, Published(plan, w0, identities, pid)), stamps);
    var journal := JournalOf(plan, w0.config.value, w0.rows, identities, pid);
    var there: string -> bool := root => identities(root).Some? && now(root) == identities(root);
    PublishedIsValid(plan, w0.config.value, w0.rows, identities, pid, size);
    AfterCommit(plan, w0, identities, pid, stamps);
    WrittenLands(plan, w0, identities, pid);
    forall root | root in plan.grants ensures there(root) <==> StillConfirmed(journal, now, root) {
      PlannedIdentity(plan, w0, identities, pid, root);
    }
    SelectKeeps(journal, now, plan.grants, true, there);
    SelectKeeps(journal, now, plan.grants, false, root => !there(root));
  }

  // ------------------------------------------------------- rows the daemon records

  /** Rows the daemon recorded in between: undecided, for roots without one. */
  ghost predicate Noticed(rows: Rows, more: Rows, journal: Option<Journal>) {
    && (forall root | root in rows :: root in more && more[root] == rows[root])
    && (forall root | root in more && root !in rows ::
          && more[root].state == Undecided
          && (journal.Some? ==> forall change | change in journal.value.consent ::
                change.previous.Some? ==> change.previous.value.ulid != more[root].ulid))
  }

  lemma {:induction false} NoticedStanding(consent: seq<Change>, rows: Rows, more: Rows, standing: Standing)
    requires forall k | 0 <= k < |consent| ::
               StandingOf(consent[k], RowAt(more, consent[k].root)) == StandingOf(consent[k], RowAt(rows, consent[k].root))
    ensures RootsStanding(consent, more, standing) == RootsStanding(consent, rows, standing)
    decreases |consent|
  {
    hide StandingOf;
    if consent != [] {
      NoticedStanding(consent[..|consent| - 1], rows, more, standing);
    }
  }

  /** A root first seen while an apply is interrupted changes nothing recovery does. */
  lemma PendingRowsDoNotDisturb(w: World, more: Rows, live: bool, now: Identities, size: Size)
    requires Noticed(w.rows, more, w.journal)
    requires w.journal.Some? ==> forall change | change in w.journal.value.consent :: change.target != Undecided
    ensures Recovered(w.(rows := more), live, now, size)
         == (Recovered(w, live, now, size).0.(rows := more), Recovered(w, live, now, size).1)
  {
    hide ValidJournal;
    hide RootsStanding;
    hide Reverted;
    hide Select;
    hide SettingsLanded;
    if w.journal.Some? {
      var consent := w.journal.value.consent;
      forall k | 0 <= k < |consent|
        ensures StandingOf(consent[k], RowAt(more, consent[k].root)) == StandingOf(consent[k], RowAt(w.rows, consent[k].root))
      {
        assert consent[k] in consent;
      }
      NoticedStanding(consent, w.rows, more, Committed);
      NoticedStanding(consent, w.rows, more, Untouched);
      NoticedStanding(consent, w.rows, more, Conflicting);
    }
  }
}
