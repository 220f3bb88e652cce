/** One onboarding apply and its recovery as the source runs them
    (src/cli/init-apply.ts): config.json, the consent rows and the journal, written
    step by step, with a crash or another writer possible in between. */
module OnboardingSetup {
  import opened Reading
  import opened InitApply

  /** How an apply ended. `Restored` is false when its own settings could not be put
      back; the journal then stays for recovery. */
  datatype Ending = Stopped | Applied | Refused | BusyElsewhere | ApplyFailed(restored: bool)

  class Setup {
    var config: Option<Config>
    var rows: Rows
    var journal: Option<Journal>

    constructor (config: Option<Config>, rows: Rows, journal: Option<Journal>)
      ensures View() == World(config, rows, journal)
    {
      this.config, this.rows, this.journal := config, rows, journal;
    }

    function View(): World
      reads this
    {
      World(config, rows, journal)
    }

    /** One validated, atomic replacement of config.json, which may also fail. */
    method SetSettings(update: Update, smooth: bool) returns (written: bool)
      modifies this`config
      ensures smooth && Merged(old(config), update).Some? ==> written
      ensures written ==> Merged(old(config), update).Some? && config == Merged(old(config), update)
      ensures !written ==> config == old(config)
    {
      var merged := MergeSettings(config, update);
      var disk: bool := *;
      written := merged.Some? && (smooth || disk);
      if written {
        config := merged;
      }
    }

    /** Puts back the keys that still hold this apply's own target. */
    method RevertOwnSettings(own: Journal, smooth: bool) returns (done: bool)
      requires config.Some?
      modifies this`config
      ensures smooth && Reverted(own, old(config).value).Some? ==> done
      ensures done ==> Reverted(own, old(config).value).Some? && config == Reverted(own, old(config).value)
      ensures !done ==> config == old(config)
    {
      hide Merged;
      var current, left := config.value, own.settings.Keys;
      var revert: Update := map[];
      while left != {}
        invariant left <= own.settings.Keys
        invariant revert == map key | key in Reverting(own, current) && key !in left :: Reverting(own, current)[key]
        decreases left
      {
        var key :| key in left;
        var value, setting := Typed(current, key), own.settings[key];
        if value != setting.previous && value == Some(setting.target) {
          revert := revert[key := setting.previous];
        }
        left := left - {key};
      }
      assert revert == Reverting(own, current);
      done := true;
      if revert != map[] {
        done := SetSettings(revert, smooth);
      }
    }

    /** The ceiling on the file, then `validJournal`, change by change. */
    method CheckJournal(own: Journal, size: Size) returns (valid: bool)
      ensures valid == ValidJournal(own, size)
    {
      if size(own) > INIT_APPLY_JOURNAL_MAX_BYTES || |own.consent| > INIT_APPLY_MAX_ROOTS {
        return false;
      }
      var roots, approved, k := [], [], 0;
      while k < |own.consent|
        invariant k == |roots| <= |own.consent| && (forall i | 0 <= i < k :: roots[i] == own.consent[i].root)
        invariant approved == ApprovedRoots(own.consent[..k])
        invariant forall i | 0 <= i < k :: AcceptsPath(own.consent[i].root) && own.consent[i].target != Undecided
        invariant forall i, j | 0 <= i < j < k :: own.consent[i].root != own.consent[j].root
      {
        assert own.consent[..k + 1][..k] == own.consent[..k];
        var change := own.consent[k];
        if !AcceptsPath(change.root) || change.target == Undecided || change.root in roots {
          return false;
        }
        roots := roots + [change.root];
        approved := if change.target == Approved then approved + [change.root] else approved;
        k := k + 1;
      }
      assert own.consent[..k] == own.consent;
      valid := |own.backfillRoots| <= |approved| && forall root | root in own.backfillRoots :: root in approved;
    }

    /** Which of the journal's changes stand as `standing`. */
    method ClassifyConsent(consent: seq<Change>) returns (committed: seq<string>, untouched: seq<string>, conflicting: seq<string>)
      ensures committed == RootsStanding(consent, rows, Committed)
      ensures untouched == RootsStanding(consent, rows, Untouched)
      ensures conflicting == RootsStanding(consent, rows, Conflicting)
    {
      hide SameRow;
      committed, untouched, conflicting := [], [], [];
      var k := 0;
      while k < |consent|
        invariant k <= |consent|
        invariant committed == RootsStanding(consent[..k], rows, Committed)
        invariant untouched == RootsStanding(consent[..k], rows, Untouched)
        invariant conflicting == RootsStanding(consent[..k], rows, Conflicting)
      {
        assert consent[..k + 1][..k] == consent[..k];
        var change := consent[k];
        match StandingOf(change, RowAt(rows, change.root)) {
          case Untouched => untouched := untouched + [change.root];
          case Committed => committed := committed + [change.root];
          case Conflicting => conflicting := conflicting + [change.root];
        }
        k := k + 1;
      }
      assert consent[..k] == consent;
    }

    /** The roots to import now and the ones only to report. */
    method SelectBackfill(own: Journal, now: Identities) returns (backfill: seq<string>, gaps: seq<string>)
      ensures backfill == Select(own, now, own.backfillRoots, true) && gaps == Select(own, now, own.backfillRoots, false)
    {
      hide StillConfirmed;
      backfill, gaps := [], [];
      var k, roots := 0, own.backfillRoots;
      while k < |roots|
        invariant k <= |roots| && backfill == Select(own, now, roots[..k], true) && gaps == Select(own, now, roots[..k], false)
      {
        assert roots[..k + 1][..k] == roots[..k];
        if StillConfirmed(own, now, roots[k]) {
          backfill := backfill + [roots[k]];
        } else {
          gaps := gaps + [roots[k]];
        }
        k := k + 1;
      }
      assert roots[..k] == roots;
    }

    /** `recoverInterruptedInitApply`. When nothing fails it does what is specified. A
        write of the settings may fail for a reason of its own; the journal then stays,
        as it does when a crash or a failure stops the recovery before it releases it. */
    method Recover(live: bool, now: Identities, size: Size, smooth: bool) returns (report: Recovery, crashed: bool)
      modifies this`config, this`journal
      ensures smooth ==> !crashed && (View(), report) == Recovered(old(View()), live, now, size)
      ensures crashed ==> !live && View() == PutBack(old(View()), now, size)
      ensures !crashed ==>
                (View(), report) == Recovered(old(View()), live, now, size) || (report == Stuck && View() == old(View()))
    {
      hide RootsStanding;
      hide Select;
      hide Reverted;
      hide AnyCapture;
      hide ValidJournal;
      crashed := false;
      if journal.None? {
        return NothingPending, crashed;
      }
      var own := journal.value;
      var valid := CheckJournal(own, size);
      if !valid {
        return Unreadable, crashed;
      }
      if live {
        return Busy(own.pid), crashed;
      }
      var committed, untouched, conflicting := ClassifyConsent(own.consent);
      if config.None? {
        return Unreadable, crashed;
      }
      var current := config.value;
      if conflicting != [] || (committed != [] && untouched != []) {
        crashed := *;
        if crashed && !smooth {
          return Stuck, true;
        }
        crashed := false;
        journal := None;
        return Conflict(conflicting + committed), crashed;
      }
      var landed := forall key | key in own.settings :: Typed(current, key) == Some(own.settings[key].target);
      if if |own.consent| > 0 then |committed| == |own.consent| else landed {
        var superseded := set key | key in own.settings && Typed(current, key) != Some(own.settings[key].target);
        crashed := *;
        if crashed && !smooth {
          return Stuck, true;
        }
        crashed := false;
        journal := None;
        var backfill, gaps := SelectBackfill(own, now);
        return PlanStands(backfill, gaps, superseded), crashed;
      }
      var superseded := Superseded(own, current);
      var done := RevertOwnSettings(own, smooth);
      if !done {
        return Stuck, crashed;
      }
      crashed := *;
      if crashed && !smooth {
        return Stuck, true;
      }
      crashed := false;
      journal := None;
      report := Undone(superseded);
    }

    /** The changes of the consent transaction, in order. */
    method StampRows(plan: Plan, stamps: Stamps)
      modifies this`rows
      ensures rows == Stamped(plan, old(rows), stamps, |Roots(plan)|)
    {
      var k := 0;
      while k < |Roots(plan)|
        invariant k <= |Roots(plan)| && rows == Stamped(plan, old(rows), stamps, k)
      {
        var root := Roots(plan)[k];
        rows := rows[root := Stamp(RowAt(rows, root), TargetAt(plan, k), stamps.now, stamps.ulids(root))];
        k := k + 1;
      }
    }

    /** The consent transaction: refused when any decision differs from the previewed
        ones, and rolled back whole when it fails. */
    method CommitConsent(plan: Plan, preview: Preview, stamps: Stamps, smooth: bool) returns (committed: bool)
      modifies this`rows
      ensures smooth && Decided(old(rows)) == preview.consent ==> committed
      ensures committed ==> forall root ::
                && (root in preview.consent <==> root in old(rows) && old(rows)[root].state != Undecided)
                && (root in preview.consent ==> preview.consent[root] == old(rows)[root])
      ensures committed ==> Decided(old(rows)) == preview.consent && rows == Stamped(plan, old(rows), stamps, |Roots(plan)|)
      ensures !committed ==> rows == old(rows)
    {
      var disk: bool := *;
      committed := Decided(rows) == preview.consent && (smooth || disk);
      if committed {
        StampRows(plan, stamps);
      }
    }

    /** Other writers, when there are any. None of them touches a journal whose owner
        lives. */
    method Others(alone: bool)
      modifies this`config, this`rows
      ensures alone ==> config == old(config) && rows == old(rows)
    {
      if !alone {
        config := *;
        rows := *;
      }
    }

    /** Gives up for `cause`: puts the settings back and releases the journal. */
    method Undo(plan: Plan, preview: Preview, stamps: Stamps, own: Journal, cause: Ending, smooth: bool)
      returns (ending: Ending, ghost steps: seq<(World, World)>)
      requires journal == Some(own) && (cause == Refused || cause == ApplyFailed(true))
      modifies this`config, this`journal
      ensures AllOwn(plan, preview, stamps, own, steps)
      ensures ending == cause || ending == ApplyFailed(false)
      ensures config == old(config) || (old(config).Some? && config.Some? && config == Reverted(own, old(config).value))
      ensures journal.None? ==> old(config).Some? && config.Some? && config == Reverted(own, old(config).value)
      ensures journal.None? || journal == Some(own)
      ensures ending == cause ==> journal.None?
      ensures smooth && old(config).Some? && Reverted(own, old(config).value).Some? ==> ending == cause
    {
      hide Reverted;
      steps := [];
      if config.None? {
        return ApplyFailed(false), steps;
      }
      var done := RevertOwnSettings(own, smooth);
      if !done {
        return ApplyFailed(false), steps;
      }
      steps := steps + [(old(View()), View())];
      var disk: bool := *;
      if !disk && !smooth {
        return ApplyFailed(false), steps;
      }
      ghost var before := View();
      journal := None;
      steps := steps + [(before, View())];
      ending := cause;
    }

    predicate StateFresh(preview: Preview)
      reads this
    {
      preview.settings == PreviewOf(config) && preview.consent == Decided(rows)
    }

    /** Everything refused before any change: a stale preview, a changed root, settings
        the file would not take, or a failed semantic-search setup, after which the
        preview is checked again. */
    method Prepare(plan: Plan, preview: Preview, alone: bool, smooth: bool) returns (stop: Option<Ending>)
      modifies this`config, this`rows
      ensures alone && smooth ==>
                (stop.None? <==>
                   old(StateFresh(preview)) && old(config).Some?
                   && (plan.settings != map[] ==> Merged(old(config), Targets(plan)).Some?))
      ensures alone ==> View() == old(View())
      ensures stop.Some? ==> stop == Some(Refused) || stop == Some(ApplyFailed(true))
      ensures stop.None? ==> config.Some?
      ensures stop.None? && alone && plan.settings != map[] ==> Merged(config, Targets(plan)).Some?
    {
      hide Merged;
      var moved: bool := *;
      if !StateFresh(preview) || (moved && !smooth) {
        return Some(Refused);
      }
      if plan.settings != map[] {
        var merged := MergeSettings(config, Targets(plan));
        if merged.None? {
          return Some(ApplyFailed(true));
        }
      }
      Others(alone);
      var ready: bool := *;
      if (!ready && !smooth) || !StateFresh(preview) {
        return Some(Refused);
      }
      if config.None? {
        return Some(ApplyFailed(true));
      }
      stop := None;
    }

    /** Lets go of the journal, which may fail and leave it for recovery. */
    method Release(plan: Plan, preview: Preview, stamps: Stamps, own: Journal, smooth: bool)
      returns (done: bool, ghost steps: seq<(World, World)>)
      requires journal == Some(own)
      modifies this`journal
      ensures AllOwn(plan, preview, stamps, own, steps)
      ensures journal == if done then None else Some(own)
      ensures smooth ==> done
    {
      done, steps := *, [];
      done := done || smooth;
      if done {
        journal := None;
        steps := [(old(View()), View())];
      }
    }

    /** Settings, checked once more against the preview and written at once. */
    method WriteStep(plan: Plan, preview: Preview, stamps: Stamps, own: Journal, smooth: bool)
      returns (stop: Option<Ending>, ghost steps: seq<(World, World)>)
      requires journal == Some(own)
      modifies this`config, this`journal
      ensures AllOwn(plan, preview, stamps, own, steps)
      ensures stop.None? ==> View() == Written(plan, old(View())) && journal == Some(own)
      ensures smooth ==>
                (stop.None? <==>
                   old(StateFresh(preview)) && (plan.settings != map[] ==> Merged(old(config), Targets(plan)).Some?))
      ensures stop.Some? ==>
                && stop.value in {Refused, ApplyFailed(true), ApplyFailed(false)}
                && (stop.value != ApplyFailed(false) ==> journal.None?) && (journal.None? || journal == Some(own))
                && (config == old(config)
                    || (old(config).Some? && config.Some? && config == Reverted(own, old(config).value)))
    {
      hide Merged;
      hide Reverted;
      steps := [];
      if !StateFresh(preview) {
        var done;
        done, steps := Release(plan, preview, stamps, own, smooth);
        return Some(if done then Refused else ApplyFailed(false)), steps;
      }
      if plan.settings != map[] {
        var written := SetSettings(Targets(plan), smooth);
        if !written {
          ghost var undoing;
          var ending;
          ending, undoing := Undo(plan, preview, stamps, own, ApplyFailed(true), smooth);
          return Some(ending), undoing;
        }
        steps := [(old(View()), View())];
      }
      stop := None;
    }

    /** The consent commit and the release after it. */
    method CommitStep(plan: Plan, preview: Preview, stamps: Stamps, own: Journal, smooth: bool)
      returns (ending: Ending, ghost steps: seq<(World, World)>)
      requires journal == Some(own)
      modifies this
      ensures AllOwn(plan, preview, stamps, own, steps)
      ensures ending in {Applied, Stopped, Refused, ApplyFailed(true), ApplyFailed(false)}
      ensures ending == Applied || ending == Stopped ==>
                View().(journal := None) == CommittedRows(plan, old(View()), stamps).(journal := None)
      ensures ending != Applied && ending != Stopped ==>
                && rows == old(rows)
                && (config == old(config)
                    || (old(config).Some? && config.Some? && config == Reverted(own, old(config).value)))
                && (journal.None? ==> old(config).Some? && config.Some? && config == Reverted(own, old(config).value))
      ensures ending == Refused || ending == ApplyFailed(true) ==> journal.None?
      ensures journal.None? || journal == Some(own)
      ensures smooth ==> (ending == Applied <==> Decided(old(rows)) == preview.consent)
      ensures smooth && ending == Applied ==> journal.None?
    {
      hide Stamped;
      hide Reverted;
      hide Decided;
      steps := [];
      var moved: bool := *;
      if moved && !smooth {
        ending, steps := Undo(plan, preview, stamps, own, Refused, smooth);
        return;
      }
      var stale := Decided(rows) != preview.consent;
      var committed := CommitConsent(plan, preview, stamps, smooth);
      if !committed {
        ending, steps := Undo(plan, preview, stamps, own, if stale then Refused else ApplyFailed(true), smooth);
        return;
      }
      steps := [(old(View()), View())];
      var crash: bool := *;
      if crash && !smooth {
        return Stopped, steps;
      }
      ghost var releasing;
      var released;
      released, releasing := Release(plan, preview, stamps, own, smooth);
      steps := steps + releasing;
      ending := Applied;
    }

    /** `applyInitPlan`, which a crash may stop after any step. Alone and with nothing
        failing, it applies the plan just when its preview still holds and the file takes
        the settings, and lets go of the journal. */
    method ApplyInitPlan(plan: Plan, preview: Preview, stamps: Stamps, identities: Identities, pid: nat, alone: bool,
                         smooth: bool)
      returns (ending: Ending, ghost own: Journal, ghost steps: seq<(World, World)>)
      modifies this
      ensures AllOwn(plan, preview, stamps, own, steps)
      ensures alone && old(config).Some? ==> StoppedAt(plan, old(View()), identities, pid, View())
      ensures alone && old(config).Some? && ending == Applied ==> (AsConfirmed(plan, old(View()), View()) <==> Consistent(plan))
      ensures alone && old(config).Some? && (ending == Refused || ending == ApplyFailed(true) || ending == BusyElsewhere) ==>
                AsBefore(old(View()), View()) && journal == old(journal)
      ensures alone && smooth && old(journal).None? && old(config).Some? ==>
                (ending == Applied <==> old(StateFresh(preview)) && Ready(plan, old(View())))
      ensures alone && smooth && old(journal).None? && old(config).Some? && ending == Applied ==>
                View() == CommittedRows(plan, Written(plan, old(View())), stamps)
    {
      hide StoppedAt;
      hide AsConfirmed;
      hide AsBefore;
      hide Reverted;
      hide Merged;
      hide Stamped;
      ghost var w0 := View();
      own, steps := Journal(pid, map[], [], []), [];
      if alone && config.Some? {
        Unchanged(plan, w0, identities, pid);
      }
      var stop := Prepare(plan, preview, alone, smooth);
      if stop.Some? {
        return stop.value, own, steps;
      }
      var crash: bool := *;
      if crash && !smooth {
        return Stopped, own, steps;
      }
      var mine := JournalOf(plan, config.value, rows, identities, pid);
      own := mine;
      Others(alone);
      if journal.Some? {
        return BusyElsewhere, own, steps;
      }
      ghost var before := View();
      journal := Some(mine);
      steps := [(before, View())];
      ghost var published := View();
      crash := *;
      if crash && !smooth {
        if alone { PublishedStop(plan, w0, identities, pid); }
        return Stopped, own, steps;
      }
      Others(alone);
      ghost var more;
      stop, more := WriteStep(plan, preview, stamps, mine, smooth);
      steps := steps + more;
      if stop.Some? {
        if alone { WriteStopped(plan, w0, identities, pid, View()); }
        return stop.value, own, steps;
      }
      crash := *;
      if crash && !smooth {
        if alone { WrittenStop(plan, w0, identities, pid); }
        return Stopped, own, steps;
      }
      Others(alone);
      ending, more := CommitStep(plan, preview, stamps, mine, smooth);
      steps := steps + more;
      if alone { CommitStopped(plan, w0, identities, pid, stamps, View(), ending); }
    }
  }

  lemma Unchanged(plan: Plan, w0: World, identities: Identities, pid: nat)
    requires w0.config.Some?
    ensures StoppedAt(plan, w0, identities, pid, w0) && AsBefore(w0, w0)
  {
  }

  lemma PublishedStop(plan: Plan, w0: World, identities: Identities, pid: nat)
    requires w0.config.Some?
    ensures StoppedAt(plan, w0, identities, pid, Published(plan, w0, identities, pid))
  {
  }

  lemma WrittenStop(plan: Plan, w0: World, identities: Identities, pid: nat)
    requires w0.config.Some?
    ensures StoppedAt(plan, w0, identities, pid, Written(plan, Published(plan, w0, identities, pid)))
  {
  }

  /** Stopped before the settings landed: nothing is different. */
  lemma WriteStopped(plan: Plan, w0: World, identities: Identities, pid: nat, w: World)
    requires w0.config.Some? && w0.journal.None? && w.rows == w0.rows
    requires var p := Published(plan, w0, identities, pid);
             && (w.journal.None? || w.journal == p.journal)
             && (w.config == w0.config || (w.config.Some? && w.config == Reverted(p.journal.value, w0.config.value)))
    ensures StoppedAt(plan, w0, identities, pid, w) && AsBefore(w0, w)
  {
    var journal := Published(plan, w0, identities, pid).journal.value;
    assert Reverting(journal, w0.config.value) == map[];
    assert w.config == w0.config;
    assert w == w0 || w == Published(plan, w0, identities, pid);
  }

  lemma CommitStopped(plan: Plan, w0: World, identities: Identities, pid: nat, stamps: Stamps, w: World, ending: Ending)
    requires Ready(plan, w0)
    requires var p := Published(plan, w0, identities, pid);
             var written := Written(plan, p);
             && (w.journal.None? || w.journal == p.journal)
             && (if ending == Applied || ending == Stopped
                 then w.(journal := None) == CommittedRows(plan, written, stamps).(journal := None)
                 else && w.rows == w0.rows
                      && (w.config == written.config
                          || (written.config.Some? && w.config.Some? && w.config == Reverted(p.journal.value, written.config.value)))
                      && (w.journal.None? ==> written.config.Some? && w.config.Some?
                                              && w.config == Reverted(p.journal.value, written.config.value)))
    ensures StoppedAt(plan, w0, identities, pid, w)
    ensures ending == Applied ==> (AsConfirmed(plan, w0, w) <==> Consistent(plan))
    ensures (ending == Refused || ending == ApplyFailed(true) || ending == BusyElsewhere) && w.journal.None? ==> AsBefore(w0, w)
  {
    hide Reverted;
    hide Merged;
    hide Stamped;
    hide AsConfirmed;
    hide Consistent;
    var p := Published(plan, w0, identities, pid);
    var written := Written(plan, p);
    RevertsToPrevious(plan, w0, identities, pid);
    if ending == Applied {
      CommittedIsConfirmed(plan, w0, w, stamps);
    }
    if ending != Applied && ending != Stopped && w.journal.Some? && w.config == written.config {
      assert w == written;
    }
  }

  /** The init settings a preview shows; an unreadable file shows defaults. */
  function PreviewOf(config: Option<Config>): map<Key, Option<bool>> {
    map key | key in {CaptureClaudeCode, CaptureCodex, CaptureOpencode, MemoryPlus} ::
      if config.None? then None else Typed(config.value, key)
  }

  /** The typed settings and the decided rows a preview was made of. */
  datatype Preview = Preview(settings: map<Key, Option<bool>>, consent: Rows)

  /** Undecided rows authorize nothing and are left out. */
  function Decided(rows: Rows): Rows {
    map root | root in rows && rows[root].state != Undecided :: rows[root]
  }

  /** One write of an apply, whatever others wrote before it: the journal onto an
      empty path; every setting at once; the consent rows, only over exactly the
      decisions previewed; its own settings back; its own journal away. */
  ghost predicate OwnStep(plan: Plan, preview: Preview, stamps: Stamps, own: Journal, b: World, a: World) {
    || (b.journal.None? && a == b.(journal := Some(own)))
    || (a.config.Some? && a == b.(config := Merged(b.config, Targets(plan))))
    || (Decided(b.rows) == preview.consent && a == b.(rows := Stamped(plan, b.rows, stamps, |Roots(plan)|)))
    || (b.config.Some? && a.config.Some? && a == b.(config := Reverted(own, b.config.value)))
    || (b.journal == Some(own) && a == b.(journal := None))
  }

  ghost predicate AllOwn(plan: Plan, preview: Preview, stamps: Stamps, own: Journal, steps: seq<(World, World)>) {
    forall step | step in steps :: OwnStep(plan, preview, stamps, own, step.0, step.1)
  }
}
