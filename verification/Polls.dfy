// What one poll, and two polls in a row, do to the journal, the versions and the running image.
module Polls {
  import opened Options
  import opened Semvers
  import opened Versions
  import opened Decisions
  import opened Ordinals
  import opened Hosts
  import opened Swap
  import opened Updater
  import opened Latch
  import opened Runtime

  // ---- what a tick does to the journal ------------------------------------------------------

  // The journal after a tick, from its story alone.
  lemma JournalAfter(p: PersistedState, d0: Disk, canonical: seq<Release>, input: TickInput, end: TickEnd,
                     story: Story, f: PersistedState)
    requires Told(p, d0, canonical, input, end, story, f)
    ensures Latest(p, story, f).attempting ==
              if story.settled.Some? then
                (if story.began.Some? || story.healed.Some? then None else p.attempting)
              else if story.began.Some? then story.began
              else if story.healed.Some? then None
              else p.attempting
    ensures story.settled.Some? ==>
              (story.began.Some? <==> var o := story.settled.value.outcome; o.Applied? || o.BusyRetry? || o.RolledBack?)
    ensures story.began.Some? && p.attempting.Some? ==> story.began == NextRung(canonical, p.currentVersion)
  {
    hide ToLibState, NextRung, RunsPinned, HealedTo, AppPinDigest, IsPoisoned, Reachable, FromLibState, RestartDue,
         EnsureCurrent;
    var p1 := Resumed(p, story);
    var rungs := Rungs(canonical, p.currentVersion, story.synthesized);
    WrittenJournal(p1, rungs, story, input);
  }

  lemma WrittenJournal(p: PersistedState, rungs: seq<Release>, story: Story, input: TickInput)
    requires story.settled.Some? ==> ToLibState(p, rungs).Some?
    ensures Written(p, rungs, story, ControlOf(input)).attempting ==
              if story.settled.Some? then (if story.began.Some? then None else p.attempting)
              else if story.began.Some? then story.began
              else p.attempting
  {
    hide ToLibState, Settled;
    if story.settled.Some? && ToLibState(p, rungs).Some? {
      var s := ToLibState(p, rungs).value;
      SettledJournal(p, rungs, s, story.settled.value.outcome, story.began.Some?);
      HonoredIsMarks(Settled(p, rungs, s, story.settled.value.outcome, story.began.Some?), p, ControlOf(input));
    }
  }

  // An unhealed journal leaves the disk exactly when its own attempt runs again and is concluded,
  // or when the feed has put another version on the next rung and that one is attempted.
  lemma JournalStandsUnless(p: PersistedState, d0: Disk, canonical: seq<Release>, input: TickInput,
                            end: TickEnd, story: Story, f: PersistedState)
    requires Told(p, d0, canonical, input, end, story, f) && p.attempting.Some? && story.healed.None?
    ensures Latest(p, story, f).attempting != p.attempting <==>
              story.began.Some? && (NextRung(canonical, p.currentVersion) != p.attempting || story.settled.Some?)
    ensures NextRung(canonical, p.currentVersion) == p.attempting && Latest(p, story, f).attempting != p.attempting ==>
              && story.began == p.attempting && story.settled.Some?
              && var o := story.settled.value.outcome; o.Applied? || o.BusyRetry? || o.RolledBack?
  {
    hide Told;
    JournalAfter(p, d0, canonical, input, end, story, f);
  }

  // The memory of the next tick (main.ts:150-169).
  function NextMemory(p: PersistedState, end: TickEnd, f: PersistedState): PersistedState {
    match end case Returned(m) => m case Escaped => p case Dead => f
  }

  // The tick threw between its journal write and its end-of-tick save, and the throw escaped.
  predicate Orphaned(p: PersistedState, end: TickEnd, story: Story) {
    end.Escaped? && story.began.Some? && story.began != p.attempting && story.settled.None?
  }

  // The tick stepped past another version's unhealed journal, and its own journal write threw.
  predicate Displaced(p: PersistedState, end: TickEnd, story: Story) {
    && end.Returned? && !story.saved && p.attempting.Some? && end.state.attempting != p.attempting
  }

  // Why a throw escaped there: the operator's restart was due and failed, or a save did.
  lemma OrphanedBy(p: PersistedState, d0: Disk, canonical: seq<Release>, input: TickInput, end: TickEnd,
                   story: Story, f: PersistedState)
    requires Told(p, d0, canonical, input, end, story, f) && story.began.Some? && story.settled.None?
    ensures end.Escaped? <==> story.cause.Some?
    ensures end.Escaped? ==>
              || (story.cause == Some(RestartFailed) && RestartDue(p, ControlOf(input)))
              || (story.cause == Some(MarksUnsaved) && Honored(p, ControlOf(input)) != p)
              || story.cause == Some(EndUnsaved)
  {
    hide ToLibState, NextRung, Concluded, RunsPinned, AppPinDigest, Rungs, Written, RestartDue, Honored;
    HonoredIsMarks(Resumed(p, story), p, ControlOf(input));
  }

  // From memory in step with the file, the next memory lacks the file's journal exactly so.
  lemma ForgottenIff(p: PersistedState, d0: Disk, canonical: seq<Release>, input: TickInput, end: TickEnd,
                     story: Story, f: PersistedState)
    requires Told(p, d0, canonical, input, end, story, f) && InStep(p, d0.state)
    ensures f.attempting.Some? && NextMemory(p, end, f).attempting != f.attempting
       <==> Orphaned(p, end, story) || (Displaced(p, end, story) && d0.state.attempting.Some?)
  {
    hide Told;
    JournalAfter(p, d0, canonical, input, end, story, f);
    HandedBack(p, d0, canonical, input, end, story, f);
    match end {
      case Returned(m) =>
        if story.saved { assert m.attempting == f.attempting || f.attempting.None?; }
      case Escaped =>
      case Dead =>
    }
  }

  lemma HandedBack(p: PersistedState, d0: Disk, canonical: seq<Release>, input: TickInput, end: TickEnd,
                   story: Story, f: PersistedState)
    requires Told(p, d0, canonical, input, end, story, f)
    ensures story.saved == (story.healed.Some? || Moved(story)) && (!story.saved ==> f == d0.state)
    ensures end.Returned? ==>
              || end.state == Latest(p, story, f)
              || (!Moved(story) && end.state.attempting.Some?
                  && end.state == Latest(p, story, f).(attempting := end.state.attempting))
  {
    hide ToLibState, NextRung, Concluded, RunsPinned, AppPinDigest, Rungs, RestartDue, Honored;
  }

  // ---- two polls in a row -----------------------------------------------------------------------

  // One poll of a run: the memory it began with, the box and the baselines before it, its end.
  datatype Poll = Poll(
    memory: PersistedState, input: TickInput, before: Disk, bases: map<string, Baseline>,
    end: TickEnd, story: Story, after: Disk)

  function FeedOf(poll: Poll): seq<Release> { Feed(poll.input, poll.memory.currentVersion) }

  ghost predicate PollTold(poll: Poll) {
    Told(poll.memory, poll.before, FeedOf(poll), poll.input, poll.end, poll.story, poll.after.state)
  }

  ghost predicate PollPlaceable(poll: Poll) {
    Placeable(FeedOf(poll), poll.memory.currentVersion)
  }

  // In a tick that heals nothing and attempts nothing, the file's journal is lost exactly when the
  // tick before, in step until then, orphaned it (a throw between journal write and end-of-tick
  // save escaped) or displaced it, and this tick saves anything at all.
  lemma JournalLostIff(a: Poll, b: Poll)
    requires PollTold(a) && PollTold(b) && InStep(a.memory, a.before.state)
    requires b.before == a.after && b.memory == NextMemory(a.memory, a.end, a.after.state)
    requires b.story.healed.None? && b.story.began.None?
    ensures b.before.state.attempting.Some? && b.after.state.attempting != b.before.state.attempting
       <==> && b.story.saved
            && (|| Orphaned(a.memory, a.end, a.story)
                || (Displaced(a.memory, a.end, a.story) && a.before.state.attempting.Some?))
    ensures Orphaned(a.memory, a.end, a.story) ==>
              || (a.story.cause == Some(RestartFailed) && RestartDue(a.memory, ControlOf(a.input)))
              || (a.story.cause == Some(MarksUnsaved) && Honored(a.memory, ControlOf(a.input)) != a.memory)
              || a.story.cause == Some(EndUnsaved)
  {
    hide Told, RestartDue, Honored;
    if Orphaned(a.memory, a.end, a.story) {
      OrphanedBy(a.memory, a.before, FeedOf(a), a.input, a.end, a.story, a.after.state);
    }
    ForgottenIff(a.memory, a.before, FeedOf(a), a.input, a.end, a.story, a.after.state);
    JournalAfter(b.memory, b.before, FeedOf(b), b.input, b.end, b.story, b.after.state);
    HandedBack(b.memory, b.before, FeedOf(b), b.input, b.end, b.story, b.after.state);
  }

  // ---- when an escaped tick leaves memory behind the disk -------------------------------------

  // What a feed makes of a state it decides nothing about: counts and kept versions it no longer
  // lists are dropped, the rest is as before.
  function Rewritten(p: PersistedState, rungs: seq<Release>): PersistedState {
    match ToLibState(p, rungs)
    case Some(s) => FromLibState(s, rungs, p).(attempting := p.attempting)
    case None => p
  }

  predicate Counts(o: Outcome) { o.Applied? || o.VerifyFailed? || o.VerifyDeferred? || o.RolledBack? }

  // Exactly which escaped ticks leave the loop with a memory older than the state file: those that
  // healed, those that began an attempt and could not finish it, and those whose outcome counted,
  // cleared a journal, forgot an unlisted version or moved a mark before something later threw.
  lemma EscapedBehindIff(p: PersistedState, d0: Disk, canonical: seq<Release>, input: TickInput, end: TickEnd,
                         story: Story, f: PersistedState)
    requires Told(p, d0, canonical, input, end, story, f) && end.Escaped?
    requires StateOk(p) && Placeable(canonical, p.currentVersion)
    ensures Latest(p, story, f) != p <==>
              || story.healed.Some?
              || (story.settled.None? && story.began.Some? && story.began != p.attempting)
              || (story.settled.Some? &&
                    (|| Counts(story.settled.value.outcome)
                     || (story.began.Some? && p.attempting.Some?)
                     || Rewritten(p, Rungs(canonical, p.currentVersion, story.synthesized)) != p
                     || (story.cause == Some(AfterSave) && Honored(p, ControlOf(input)) != p)))
  {
    hide StateOk, Placeable, RunsPinned, AppPinDigest, RestartDue, Rungs, ToLibState, Settled, Concluded, NextRung,
         Honored, Counts, Rewritten,
         Warranted, OrdinalOf, EnsureCurrent;
    var p1, rungs := Resumed(p, story), Rungs(canonical, p.currentVersion, story.synthesized);
    HandedBack(p, d0, canonical, input, end, story, f);
    JournalAfter(p, d0, canonical, input, end, story, f);
    if story.healed.Some? {
      assert story.settled.None? && story.began.Some? ==> f.attempts == Counted(p, p.attempting.value).attempts by {
        HonoredIsMarks(p1.(attempting := story.began), p, ControlOf(input));
      }
    } else if story.settled.Some? {
      RungsOk(p, canonical, story.synthesized);
      SettledDiffersIff(p, rungs, story, input);
    }
  }

  lemma RungsOk(p: PersistedState, canonical: seq<Release>, synthesized: Option<string>)
    requires StateOk(p) && Placeable(canonical, p.currentVersion)
    ensures KeptOk(p) && Ladder(Rungs(canonical, p.currentVersion, synthesized))
  {
    hide Ladder, KeptOk, Parse, EnsureCurrent;
    RungsAreLadder(canonical, p.currentVersion, synthesized);
  }

  lemma SettledDiffersIff(p: PersistedState, rungs: seq<Release>, story: Story, input: TickInput)
    requires KeptOk(p) && Ladder(rungs) && ToLibState(p, rungs).Some? && story.settled.Some?
    requires Concluded(p, rungs, ToLibState(p, rungs).value, story.settled.value, story.began.Some?, input)
    requires story.marked ==> Honored(p, ControlOf(input)) != p
    ensures Written(p, rungs, story, ControlOf(input)) != p <==>
              || Counts(story.settled.value.outcome)
              || (story.began.Some? && p.attempting.Some?)
              || Rewritten(p, rungs) != p
              || story.marked
  {
    hide KeptOk, Ladder, ToLibState, NextRung, FromLibState, NextLib, Concluded, Settled;
    var s, o, journaled := ToLibState(p, rungs).value, story.settled.value.outcome, story.began.Some?;
    var next := Settled(p, rungs, s, o, journaled);
    ConcludedFits(p, rungs, s, story.settled.value, journaled, input);
    SettledMarks(p, rungs, s, o, journaled);
    HonoredIsMarks(next, p, ControlOf(input));
    if Counts(o) {
      CountingMoves(p, rungs, s, o, journaled);
    } else {
      IdleSettled(p, rungs, s, o, journaled);
    }
  }

  // An outcome that decides nothing settles the state as the feed rewrites it.
  lemma IdleSettled(p: PersistedState, rungs: seq<Release>, s: LibState, o: Outcome, journaled: bool)
    requires ToLibState(p, rungs) == Some(s) && !Counts(o)
    ensures Settled(p, rungs, s, o, journaled)
         == Rewritten(p, rungs).(attempting := if journaled then None else p.attempting)
  {
    hide ByVersion, NewestTwo, KeptVersions, ToLibState;
  }

  lemma CountingMoves(p: PersistedState, rungs: seq<Release>, s: LibState, o: Outcome, journaled: bool)
    requires KeptOk(p) && Ladder(rungs) && ToLibState(p, rungs) == Some(s) && Fits(s, rungs, o, journaled) && Counts(o)
    ensures var q := Settled(p, rungs, s, o, journaled);
            q.currentVersion != p.currentVersion || q.attempts != p.attempts || q.verifyDeferrals != p.verifyDeferrals
  {
    hide KeptOk, Ladder, ToLibState, NextLib, FromLibState, IsPoisoned;
    var q := Settled(p, rungs, s, o, journaled);
    if o.Applied? {
      NextVersions(p, rungs, o);
      BelowIrreflexive(p.currentVersion);
    } else if o.VerifyDeferred? {
      DeferralsStep(p, rungs, o.version);
    } else {
      AttemptsStep(p, rungs, o, s.current + 1);
    }
  }

  // The failing case: a swap was saved and something after the save threw. Whatever the next tick
  // saves without stepping again holds the old current version, strictly below what the file held,
  // and the old floor, strictly below too unless the floor had been there already.
  lemma StaleSaveFalls(a: Poll, b: Poll)
    requires StaleSave(a, b)
    ensures IsBelow(b.after.state.currentVersion, b.before.state.currentVersion)
    ensures IsBelow(b.after.state.floorVersion, b.before.state.floorVersion)
       <==> IsBelow(a.memory.floorVersion, a.after.state.currentVersion)
  {
    hide Told, StateOk, IsBelow, Placeable;
    VersionsAfter(a.memory, a.before, FeedOf(a), a.input, a.end, a.story, a.after.state);
    VersionsAfter(b.memory, b.before, FeedOf(b), b.input, b.end, b.story, b.after.state);
    BelowIrreflexive(a.memory.floorVersion);
  }

  // A swap was saved, something after the save threw, and the next tick saved without stepping on.
  ghost predicate StaleSave(a: Poll, b: Poll) {
    && PollTold(a) && PollTold(b) && StateOk(a.memory) && PollPlaceable(a) && PollPlaceable(b)
    && a.end.Escaped? && a.story.settled.Some? && a.story.settled.value.outcome.Applied?
    && b.memory == a.memory && b.before == a.after
    && b.story.saved && !(b.story.settled.Some? && b.story.settled.value.outcome.Applied?)
  }

  // The versions after a tick, from its story.
  lemma VersionsAfter(p: PersistedState, d0: Disk, canonical: seq<Release>, input: TickInput, end: TickEnd,
                      story: Story, f: PersistedState)
    requires Told(p, d0, canonical, input, end, story, f) && StateOk(p) && Placeable(canonical, p.currentVersion)
    ensures var q := Latest(p, story, f);
            if story.settled.Some? && story.settled.value.outcome.Applied? then
              && IsBelow(p.currentVersion, q.currentVersion) && Lists(canonical, q.currentVersion) && story.saved
              && q.floorVersion == (if IsBelow(p.floorVersion, q.currentVersion) then q.currentVersion
                                    else p.floorVersion)
            else q.currentVersion == p.currentVersion && q.floorVersion == p.floorVersion
  {
    hide RunsPinned, AppPinDigest, RestartDue, EnsureCurrent, ToLibState, Settled, Concluded, NextRung, Ladder, IsBelow,
         KeptOk, Parse, SemverOf, Lists;
    var p1, rungs := Resumed(p, story), Rungs(canonical, p.currentVersion, story.synthesized);
    RungsAreLadder(canonical, p.currentVersion, story.synthesized);
    if story.settled.Some? {
      var s, o := ToLibState(p1, rungs).value, story.settled.value.outcome;
      ConcludedFits(p1, rungs, s, story.settled.value, story.began.Some?, input);
      ResumedOk(p, story);
      SettledVersions(p1, rungs, s, o, story.began.Some?);
      HonoredIsMarks(Settled(p1, rungs, s, o, story.began.Some?), p, ControlOf(input));
      if o.Applied? {
        AboveIsListed(canonical, rungs, p.currentVersion, Settled(p1, rungs, s, o, story.began.Some?).currentVersion);
      }
    } else {
      HonoredIsMarks(p1, p, ControlOf(input));
      HonoredIsMarks(p1.(attempting := story.began), p, ControlOf(input));
    }
  }

  lemma ResumedOk(p: PersistedState, story: Story)
    requires StateOk(p)
    ensures StateOk(Resumed(p, story)) && KeptOk(Resumed(p, story))
  {
    hide IsBelow, AtLeast, Parse;
  }

  lemma AboveIsListed(canonical: seq<Release>, rungs: seq<Release>, current: string, v: string)
    requires Lists(rungs, v) && IsBelow(current, v)
    requires forall e :: e in rungs ==> e in canonical || e.version == current
    ensures Lists(canonical, v)
  {
    BelowIrreflexive(current);
  }

  lemma SettledVersions(p: PersistedState, rungs: seq<Release>, s: LibState, o: Outcome, journaled: bool)
    requires KeptOk(p) && Ladder(rungs) && ToLibState(p, rungs) == Some(s) && Fits(s, rungs, o, journaled)
    requires AtLeast(p.floorVersion, p.currentVersion)
    ensures var q := Settled(p, rungs, s, o, journaled);
            && (if o.Applied? then IsBelow(p.currentVersion, q.currentVersion) && Lists(rungs, q.currentVersion)
                else q.currentVersion == p.currentVersion)
            && q.floorVersion == (if IsBelow(p.floorVersion, q.currentVersion) then q.currentVersion
                                  else p.floorVersion)
            && (!o.Applied? ==> q.floorVersion == p.floorVersion)
  {
    hide KeptOk, Ladder, ToLibState, IsPoisoned, NextLib, ByVersion, NewestTwo, KeptVersions, Parse;
    NextVersions(p, rungs, o);
    var q := Settled(p, rungs, s, o, journaled);
    if o.Applied? { assert rungs[o.version - 1] in rungs; }
  }

  // ---- whose image a rollback runs ------------------------------------------------------------

  // A rollback pins and runs the running version's own image exactly when the feed still lists
  // that version or the app pin at the start of the tick carried its digest.
  lemma RollbackRunsOwnImageIff(p: PersistedState, d0: Disk, canonical: seq<Release>, input: TickInput,
                                end: TickEnd, story: Story, f: PersistedState, own: string)
    requires Told(p, d0, canonical, input, end, story, f) && Placeable(canonical, p.currentVersion)
    requires story.settled.Some? && story.settled.value.outcome.RolledBack?
    requires forall e :: e in canonical && e.version == p.currentVersion ==> e.imageDigest == own
    ensures RunsPinned(story.settled.value.disk, own)
       <==> OrdinalOf(canonical, p.currentVersion).Some? || AppPinDigest(d0) == Some(own)
  {
    hide Placeable, AppPinDigest, RestartDue, EnsureCurrent, HealedTo, Settled, IsPoisoned, Honored, OrdinalOf,
         Reachable, ByOrdinal, KeptOrdinals;
    var p1, rungs := Resumed(p, story), Rungs(canonical, p.currentVersion, story.synthesized);
    LibCurrent(p1, rungs);
    var digest := rungs[ToLibState(p1, rungs).value.current - 1].imageDigest;
    ImageRefTells(digest, own);
    if story.synthesized.Some? {
      SynthesizedDigest(canonical, p.currentVersion, story.synthesized.value);
    }
  }

  lemma ImageRefTells(a: string, b: string)
    ensures ImageRef(a) == ImageRef(b) <==> a == b
  {
    assert ImageRef(a)[|IMAGE_REPO| + 1..] == a && ImageRef(b)[|IMAGE_REPO| + 1..] == b;
  }

  // The failing case: a busy retry left the pin on v's image and no journal, and the feed then
  // drops the running version. It is synthesized with v's digest, so the next rollback pins and
  // runs the very image it condemns, and reports success.
  lemma BusyPinIsTaken(a: Poll, b: Poll, digest: string)
    requires PollTold(a) && a.story.settled.Some? && a.story.settled.value.outcome.BusyRetry?
    requires Pinned(a.story.settled.value.disk, digest) && IsDigest(digest)
    requires PollTold(b) && PollPlaceable(b) && b.memory == a.after.state
    requires b.before.env == a.story.settled.value.disk.env
    requires OrdinalOf(FeedOf(b), b.memory.currentVersion).None?
    requires b.story.settled.Some? && b.story.settled.value.outcome.RolledBack?
    ensures a.after.state.attempting.None?
    ensures RunsPinned(b.story.settled.value.disk, digest)
  {
    hide Told, Placeable, IsDigest;
    JournalAfter(a.memory, a.before, FeedOf(a), a.input, a.end, a.story, a.after.state);
    JournalAfter(b.memory, b.before, FeedOf(b), b.input, b.end, b.story, b.after.state);
    SettledIsSaved(a.memory, a.before, FeedOf(a), a.input, a.end, a.story, a.after.state);
    PinnedOfRef(digest);
    RollbackRunsOwnImageIff(b.memory, b.before, FeedOf(b), b.input, b.end, b.story, b.after.state, digest);
  }

  lemma SettledIsSaved(p: PersistedState, d0: Disk, canonical: seq<Release>, input: TickInput, end: TickEnd,
                       story: Story, f: PersistedState)
    requires Told(p, d0, canonical, input, end, story, f)
    ensures story.settled.Some? || story.began.Some? || story.healed.Some? || story.marked <==> story.saved
  {
  }

  lemma PinnedOfRef(digest: string)
    requires IsDigest(digest)
    ensures PinnedDigest(ImageRef(digest)) == Some(digest)
  {
    PinnedAfter(IMAGE_REPO, digest);
    assert ImageRef(digest) == IMAGE_REPO + ("@" + digest);
  }

  lemma {:induction false} PinnedAfter(repo: string, digest: string)
    requires '@' !in repo && IsDigest(digest)
    ensures PinnedDigest(repo + ("@" + digest)) == Some(digest)
  {
    hide IsDigest;
    if repo == [] {
      assert [] + ("@" + digest) == "@" + digest && ("@" + digest)[1..] == digest;
    } else {
      assert (repo + ("@" + digest))[1..] == repo[1..] + ("@" + digest);
      PinnedAfter(repo[1..], digest);
    }
  }
}
