// Runs of the real tick over boxes with stated fates: what goes wrong when one kind of effect throws,
// and once when none does.
module Scenes {
  import opened Options
  import opened Characters
  import opened Semvers
  import opened Versions
  import opened Decisions
  import opened Ordinals
  import opened Hosts
  import opened Swap
  import opened Updater
  import opened Latch
  import opened Runtime
  import opened Polls

  const CLEAN_CUT := Debris(None, None, {}, false, false)

  // Every effect lands, but for these kinds, which always throw.
  function Except(balking: set<Effect>): (Effect, nat) -> Fate {
    (e, n) => if e in balking then Throws(CLEAN_CUT) else Lands
  }

  // The booth asks for a version, with a signed release without a bundle.
  function Invite(releases: seq<Release>, desired: string, control: Option<Control>, signatureOk: bool,
                  samples: seq<CanarySample>): TickInput
  {
    TickInput(Some(releases), Some(Heartbeat(Some(desired), control)), signatureOk, NoBundle, samples)
  }

  const WELL := CanarySample(true, None, false)
  const BROKEN := CanarySample(false, None, false)

  // A rung above the running version that nothing speaks against.
  ghost predicate Open(p: PersistedState, rungs: seq<Release>, s: LibState) {
    && ToLibState(p, rungs) == Some(s) && s.current < |rungs|
    && !IsPoisoned(s.attempts, s.current + 1, MAX_FAILURES_BEFORE_LATCH)
    && !rungs[s.current].yanked && !IsBelow(rungs[s.current].version, p.floorVersion)
  }

  lemma InviteIsExpected(p: PersistedState, rungs: seq<Release>, s: LibState, releases: seq<Release>,
                         control: Option<Control>, signatureOk: bool, samples: seq<CanarySample>)
    requires Ladder(rungs) && Open(p, rungs, s)
    ensures Expected(p, rungs, s, Invite(releases, rungs[s.current].version, control, signatureOk, samples))
         == if signatureOk then Judged(s, VerdictOf(samples)) else VerifyDeferred(s.current + 1)
  {
    hide IsPoisoned, Ladder, ToLibState, VerdictOf, IsBelow, OrdinalOf;
    LadderOrdinal(rungs, s.current);
    LibCurrent(p, rungs);
  }

  lemma Verdicts()
    ensures VerdictOf([]) == Busy && VerdictOf([WELL]) == Healthy && VerdictOf([BROKEN]) == WriteBroken
  {
    QuietMembers([WELL]);
    QuietMembers([BROKEN]);
    assert [WELL][1..] == [] && [BROKEN][1..] == [];
    assert QuietOf([WELL]) == [WELL] && QuietOf([BROKEN]) == [BROKEN];
    assert BROKEN in QuietOf([BROKEN]);
  }

  // What the scenes start from: a box in step, no journal, no snapshot, and a list with an open rung.
  ghost predicate Set(p: PersistedState, d: Disk, releases: seq<Release>, rungs: seq<Release>, s: LibState) {
    && StateOk(p) && d.state == p && p.attempting.None? && d.snapshot.stamp.None? && d.env.Some?
    && FeedOk(Invite(releases, "", None, true, []), p.currentVersion)
    && Canonical(releases, p.currentVersion) == Some(rungs) && Open(p, rungs, s)
  }

  lemma SceneStarts(p: PersistedState, d: Disk, releases: seq<Release>, rungs: seq<Release>, s: LibState,
                    input: TickInput)
    requires Set(p, d, releases, rungs, s) && input.releases == Some(releases)
    ensures StateOk(p) && p.attempting.None? && d.env.Some? && StampSafe(d, map[])
    ensures FeedOk(input, p.currentVersion) && Feed(input, p.currentVersion) == rungs
    ensures Placeable(rungs, p.currentVersion) && Ladder(rungs)
    ensures Open(p, rungs, s) && ToLibState(p, rungs) == Some(s) && s.current < |rungs|
    ensures OrdinalOf(rungs, p.currentVersion).Some?
            && NextRung(rungs, p.currentVersion) == Some(rungs[s.current].version)
  {
    hide Canonical, Untied, SteppableOf, Steppable, Parse, SemverOf, Ladder, OrdinalOf, ToLibState, IsPoisoned,
         NextRung;
    StateParses(p);
    ListingFacts(input, p.currentVersion);
    LibCurrent(p, rungs);
  }

  // A host whose fates are stated.
  lemma Fated(host: BoxHost, balking: set<Effect>)
    requires host.fates == Except(balking)
    ensures forall e :: e in balking ==> host.LuckOf(e) == Never
    ensures forall e :: e !in balking ==> host.LuckOf(e) == Always
    ensures balking <= {Migrating, Restarting, MarksSave} ==> host.Calm()
  {
    forall e | e in balking ensures host.LuckOf(e) == Never {
      assert host.fates(e, 0).Throws?;
      assert host.Balks(e);
    }
    forall e | e !in balking ensures host.Lands(e) {}
  }

  // A calm tick without a journal, over a list with the running version on it, settles what is expected.
  lemma SceneTells(k: Outlook, p: PersistedState, d: Disk, rungs: seq<Release>, s: LibState, input: TickInput,
                   end: TickEnd, story: Story, f: PersistedState)
    requires k.calm && input.heartbeat.Some? && p.attempting.None? && ToLibState(p, rungs) == Some(s)
    requires OrdinalOf(rungs, p.currentVersion).Some?
    requires Told(p, d, rungs, input, end, story, f) && TickProgressed(k, p, d, rungs, input, end, story)
    ensures story.healed.None? && story.synthesized.None?
    ensures Progressed(k, p, rungs, input, d.env.Some?, end, story)
    ensures story.saved <==> Moved(story)
    ensures end.Escaped? <==> story.cause.Some?
  {
    hide Stepped, Progressed, OrdinalOf, ToLibState, AppPinDigest;
    CauseTells(p, if story.healed.Some? then Resumed(p, story) else d.state,
               Rungs(rungs, p.currentVersion, story.synthesized), input, end, story, f, story.healed.Some?);
  }

  lemma CauseTells(p: PersistedState, f0: PersistedState, rungs: seq<Release>, input: TickInput, end: TickEnd,
                   story: Story, f: PersistedState, healed: bool)
    ensures Stepped(p, f0, rungs, input, end, story, f, healed) ==> (end.Escaped? <==> story.cause.Some?)
  {
  }

  lemma Settles(k: Outlook, p: PersistedState, rungs: seq<Release>, s: LibState, input: TickInput, hasEnv: bool,
                end: TickEnd, story: Story, e: Outcome)
    requires k.calm && input.heartbeat.Some? && ToLibState(p, rungs) == Some(s) && Expected(p, rungs, s, input) == e
    requires Progressed(k, p, rungs, input, hasEnv, end, story) && (Swaps(e) ==> hasEnv && k.migrating.Always?)
    ensures story.settled.Some? && story.settled.value.outcome == e
    ensures k.marking.Never? && Honored(p, ControlOf(input)) != p
            && (k.restarting.Always? || !RestartDue(p, ControlOf(input))) ==>
              story.cause == Some(MarksUnsaved)
    ensures k.marking.Always? && k.restarting.Always? ==> end.Returned?
  {
    hide Expected, ToLibState, Honored, RestartDue;
  }

  // A release is applied and saved, then the saving of the operator's mark throws out of the tick. The
  // loop goes on with its old memory, and the next tick, which defers, saves it: current falls below
  // what the file held, and so does the floor if the release had raised it.
  method StaleSave(p: PersistedState, d: Disk, releases: seq<Release>, control: Control, next: string,
                   ghost rungs: seq<Release>, ghost s: LibState)
    returns (host: BoxHost, ghost a: Poll, ghost b: Poll)
    requires Set(p, d, releases, rungs, s) && next == rungs[s.current].version
    requires Honored(p, Some(control)) != p && !RestartDue(p, Some(control))
    ensures PollTold(a) && PollTold(b) && a.memory == p && a.before == d && b.memory == p && b.before == a.after
    ensures a.end.Escaped? && a.story.settled.Some? && a.story.settled.value.outcome.Applied? && host.disk == b.after
    ensures IsBelow(b.after.state.currentVersion, a.after.state.currentVersion)
    ensures IsBelow(b.after.state.floorVersion, a.after.state.floorVersion)
       <==> IsBelow(p.floorVersion, a.after.state.currentVersion)
  {
    hide Set, Told, StateOk, Placeable, IsBelow, Ladder, TickKept, Guards, Untouched, FeedOk, StampSafe, ToLibState,
         Honored, RestartDue, VerdictOf, Canonical, Feed, OrdinalOf, Hit, Listed, Expected, Progressed, TickProgressed,
         Open, NextRung;
    host := new BoxHost(Except({MarksSave}), d);
    var first := Invite(releases, next, Some(control), true, [WELL]);
    var second := Invite(releases, next, None, false, []);
    SceneStarts(p, d, releases, rungs, s, first);
    SceneStarts(p, d, releases, rungs, s, second);
    InviteIsExpected(p, rungs, s, releases, Some(control), true, [WELL]);
    InviteIsExpected(p, rungs, s, releases, None, false, []);
    Verdicts();
    Fated(host, {MarksSave});
    ghost var k := OutlookOf(host);
    var end;
    ghost var story;
    end, story := RunTick(host, p, first, "");
    a := Poll(p, first, d, map[], end, story, host.disk);
    SceneTells(k, p, d, rungs, s, first, end, story, host.disk.state);
    Settles(k, p, rungs, s, first, true, end, story, Applied(s.current + 1));
    ghost var bases := host.log.bases;
    end, story := RunTick(host, p, second, "");
    b := Poll(p, second, a.after, bases, end, story, host.disk);
    SceneTells(k, p, a.after, rungs, s, second, end, story, host.disk.state);
    Settles(k, p, rungs, s, second, a.after.env.Some?, end, story, VerifyDeferred(s.current + 1));
    StaleSaveFalls(a, b);
  }

  // A swap throws after its journal write (its migration does), and the forced restart the operator
  // asked for throws out of the catch block. The next tick, from memory without the journal, defers
  // and saves: the journal is gone from the disk, and nobody healed it.
  method LostJournal(p: PersistedState, d: Disk, releases: seq<Release>, control: Control, next: string,
                     ghost rungs: seq<Release>, ghost s: LibState)
    returns (host: BoxHost, ghost a: Poll, ghost b: Poll)
    requires Set(p, d, releases, rungs, s) && next == rungs[s.current].version
    requires RestartDue(p, Some(control))
    ensures PollTold(a) && PollTold(b) && a.memory == p && a.before == d && b.memory == p && b.before == a.after
    ensures a.end.Escaped? && Orphaned(p, a.end, a.story) && host.disk == b.after
    ensures a.after.state.attempting == Some(next) && b.after.state.attempting.None?
    ensures a.story.healed.None? && b.story.healed.None? && b.story.began.None?
  {
    hide Set, Told, StateOk, Placeable, IsBelow, Ladder, TickKept, Guards, Untouched, FeedOk, StampSafe, ToLibState,
         Honored, RestartDue, VerdictOf, Canonical, Feed, OrdinalOf, Hit, Listed, Expected, Progressed, TickProgressed,
         Open, NextRung;
    host := new BoxHost(Except({Migrating, Restarting}), d);
    var first := Invite(releases, next, Some(control), true, [WELL]);
    var second := Invite(releases, next, None, false, []);
    SceneStarts(p, d, releases, rungs, s, first);
    SceneStarts(p, d, releases, rungs, s, second);
    InviteIsExpected(p, rungs, s, releases, Some(control), true, [WELL]);
    InviteIsExpected(p, rungs, s, releases, None, false, []);
    Verdicts();
    Fated(host, {Migrating, Restarting});
    ghost var k := OutlookOf(host);
    var end;
    ghost var story;
    end, story := RunTick(host, p, first, "");
    a := Poll(p, first, d, map[], end, story, host.disk);
    SceneTells(k, p, d, rungs, s, first, end, story, host.disk.state);
    Balks(k, p, rungs, s, first, end, story, Applied(s.current + 1));
    JournalAfter(p, d, rungs, first, end, story, host.disk.state);
    ghost var bases := host.log.bases;
    end, story := RunTick(host, p, second, "");
    b := Poll(p, second, a.after, bases, end, story, host.disk);
    SceneTells(k, p, a.after, rungs, s, second, end, story, host.disk.state);
    Settles(k, p, rungs, s, second, a.after.env.Some?, end, story, VerifyDeferred(s.current + 1));
    JournalAfter(p, a.after, rungs, second, end, story, host.disk.state);
  }

  lemma Balks(k: Outlook, p: PersistedState, rungs: seq<Release>, s: LibState, input: TickInput, end: TickEnd,
              story: Story, e: Outcome)
    requires k.calm && input.heartbeat.Some? && ToLibState(p, rungs) == Some(s) && Expected(p, rungs, s, input) == e
    requires Progressed(k, p, rungs, input, true, end, story) && Swaps(e) && k.migrating.Never?
    ensures story.settled.None? && story.began == NextRung(rungs, p.currentVersion)
    ensures k.restarting.Never? && RestartDue(p, ControlOf(input)) ==> story.cause == Some(RestartFailed)
  {
    hide Expected, ToLibState, Honored, RestartDue, NextRung;
  }

  // Everything lands. The canary of `next` is busy throughout, so its image stays pinned and no journal
  // is left; the feed drops the running version; and the next tick, whose canary condemns `next`, rolls
  // back to the digest it found on the pin: the box pins and runs the image it has just condemned.
  method CondemnedImageRuns(p: PersistedState, d: Disk, releases: seq<Release>, later: seq<Release>, next: string,
                            digest: string, ghost rungs: seq<Release>, ghost s: LibState,
                            ghost left: seq<Release>, ghost rungs': seq<Release>, ghost s': LibState)
    returns (host: BoxHost, ghost a: Poll, ghost b: Poll)
    requires Set(p, d, releases, rungs, s) && rungs[s.current].version == next
    requires rungs[s.current].imageDigest == digest && IsDigest(digest)
    requires FeedOk(Invite(later, next, None, true, [BROKEN]), p.currentVersion)
    requires Canonical(later, p.currentVersion) == Some(left) && OrdinalOf(left, p.currentVersion).None?
    requires rungs' == EnsureCurrent(left, p.currentVersion, digest)
    requires Open(Settled(p, rungs, s, BusyRetry(s.current + 1), true), rungs', s')
             && rungs'[s'.current].version == next
    ensures a.memory == p && a.story.settled.Some? && a.story.settled.value.outcome == BusyRetry(s.current + 1)
    ensures b.before == a.after && a.end == Returned(b.memory) && b.memory == a.after.state
    ensures b.story.settled.Some? && b.story.settled.value.outcome.RolledBack? && b.end.Returned?
    ensures host.disk == b.after && RunsPinned(host.disk, digest)
  {
    hide Set, Told, StateOk, Placeable, IsBelow, Ladder, TickKept, Guards, Untouched, FeedOk, StampSafe, ToLibState,
         Honored, RestartDue, VerdictOf, Canonical, Feed, OrdinalOf, Hit, Listed, Expected, Progressed, TickProgressed,
         Open, NextRung, Settled, EnsureCurrent, IsDigest;
    host := new BoxHost(Except({}), d);
    var first := Invite(releases, next, None, true, []);
    var second := Invite(later, next, None, true, [BROKEN]);
    SceneStarts(p, d, releases, rungs, s, first);
    InviteIsExpected(p, rungs, s, releases, None, true, []);
    Verdicts();
    Fated(host, {});
    ghost var k := OutlookOf(host);
    var end;
    ghost var story;
    end, story := RunTick(host, p, first, "");
    a := Poll(p, first, d, map[], end, story, host.disk);
    SceneTells(k, p, d, rungs, s, first, end, story, host.disk.state);
    Settles(k, p, rungs, s, first, true, end, story, BusyRetry(s.current + 1));
    BusyLeaves(p, d, rungs, s, first, end, story, host.disk, digest);
    var m := end.state;
    TickKeptOk(p, Log(map[], [], []), end, Latest(p, story, host.disk.state), host.log, "",
               Listed(first, p.currentVersion, ""), Hit(p, rungs, story, ""));
    ghost var bases := host.log.bases;
    LaterFeed(p, rungs, s, m, later, left, digest, rungs', second);
    InviteIsExpected(m, rungs', s', later, None, true, [BROKEN]);
    OpenLib(m, rungs', s');
    end, story := RunTick(host, m, second, "");
    b := Poll(m, second, a.after, bases, end, story, host.disk);
    Synthesizes(k, m, a.after, left, rungs', s', digest, second, end, story);
    Settles(k, m, rungs', s', second, true, end, story,
            RolledBack(s'.current + 1, RollbackTarget(s'.kept, s'.current + 1)));
    RolledBackRuns(m, a.after, left, rungs', s', digest, second, end, story, host.disk);
  }

  lemma OpenLib(p: PersistedState, rungs: seq<Release>, s: LibState)
    requires Open(p, rungs, s)
    ensures ToLibState(p, rungs) == Some(s) && s.current < |rungs|
  {
  }

  lemma TickKeptOk(p: PersistedState, log0: Log, end: TickEnd, q: PersistedState, log: Log, w: string, listed: bool,
                   hit: bool)
    requires TickKept(p, log0, end, q, log, w, listed, hit)
    ensures end.Returned? ==> StateOk(end.state)
  {
    hide StateOk, LatchStep, Tallied, Barred, AtLeast;
  }

  // What a busy tick leaves behind.
  lemma BusyLeaves(p: PersistedState, d: Disk, rungs: seq<Release>, s: LibState, input: TickInput, end: TickEnd,
                   story: Story, d': Disk, digest: string)
    requires p.attempting.None? && ToLibState(p, rungs) == Some(s) && s.current < |rungs|
    requires OrdinalOf(rungs, p.currentVersion).Some? && ControlOf(input).None?
    requires Told(p, d, rungs, input, end, story, d'.state) && Untouched(story, d') && end.Returned?
    requires story.settled.Some? && story.settled.value.outcome == BusyRetry(s.current + 1)
    requires rungs[s.current].imageDigest == digest && IsDigest(digest)
    ensures end.state == d'.state == Settled(p, rungs, s, BusyRetry(s.current + 1), true)
    ensures Pinned(d', digest) && AppPinDigest(d') == Some(digest)
  {
    hide ToLibState, OrdinalOf, NextRung, Settled, IsDigest, PinnedDigest, Reachable, IsPoisoned, HealedTo, Expected,
         Warranted;
    NothingHonored(p);
    PinnedOfRef(digest);
  }

  // The feed that dropped the running version, with that version put back on the pin's digest.
  lemma LaterFeed(p: PersistedState, rungs: seq<Release>, s: LibState, m: PersistedState, later: seq<Release>,
                  left: seq<Release>, digest: string, rungs': seq<Release>, input: TickInput)
    requires StateOk(p) && Ladder(rungs) && ToLibState(p, rungs) == Some(s)
    requires m == Settled(p, rungs, s, BusyRetry(s.current + 1), true)
    requires input.releases == Some(later) && FeedOk(input, p.currentVersion)
    requires Canonical(later, p.currentVersion) == Some(left) && OrdinalOf(left, p.currentVersion).None?
    requires rungs' == EnsureCurrent(left, p.currentVersion, digest)
    ensures m.currentVersion == p.currentVersion && m.attempting.None?
    ensures Feed(input, m.currentVersion) == left && Placeable(left, m.currentVersion) && Ladder(rungs')
  {
    hide Canonical, Untied, SteppableOf, Steppable, Parse, SemverOf, Ladder, OrdinalOf, ToLibState, EnsureCurrent,
         KeptOk, FromLibState, NextLib;
    StateParses(p);
    StateIsKept(p);
    ListingFacts(input, p.currentVersion);
    NextVersions(p, rungs, BusyRetry(s.current + 1));
    SettledJournal(p, rungs, s, BusyRetry(s.current + 1), true);
    RungsAreLadder(left, p.currentVersion, Some(digest));
  }

  lemma Synthesizes(k: Outlook, p: PersistedState, d: Disk, left: seq<Release>, rungs: seq<Release>, s: LibState,
                    digest: string, input: TickInput, end: TickEnd, story: Story)
    requires k.calm && input.heartbeat.Some? && p.attempting.None? && OrdinalOf(left, p.currentVersion).None?
    requires AppPinDigest(d) == Some(digest) && d.env.Some? && rungs == EnsureCurrent(left, p.currentVersion, digest)
    requires TickProgressed(k, p, d, left, input, end, story)
    ensures story.synthesized == Some(digest) && Progressed(k, p, rungs, input, true, end, story)
  {
    hide Progressed, OrdinalOf, AppPinDigest, EnsureCurrent;
  }

  lemma RolledBackRuns(p: PersistedState, d: Disk, left: seq<Release>, rungs: seq<Release>, s: LibState, digest: string,
                       input: TickInput, end: TickEnd, story: Story, d': Disk)
    requires p.attempting.None? && OrdinalOf(left, p.currentVersion).None? && Placeable(left, p.currentVersion)
    requires story.synthesized == Some(digest) && rungs == EnsureCurrent(left, p.currentVersion, digest)
    requires ToLibState(p, rungs) == Some(s)
    requires Told(p, d, left, input, end, story, d'.state) && Untouched(story, d')
    requires story.settled.Some? && story.settled.value.outcome.RolledBack?
    ensures RunsPinned(d', digest)
  {
    hide ToLibState, OrdinalOf, NextRung, Settled, Reachable, IsPoisoned, HealedTo, Expected, Warranted, EnsureCurrent,
         AppPinDigest, Placeable, Honored, RestartDue;
    SynthesizedDigest(left, p.currentVersion, digest);
    LibCurrent(p, rungs);
  }

  // ---- the scenes have a stage ----------------------------------------------------------------

  lemma ReadsOldTag()
    ensures Parse("1.0.0") == Some(Semver(1, 0, 0, true))
  {
    assert "1.0.0"[..1] == "1" && "1.0.0"[1..] == ".0.0" && ".0.0"[1..] == "0.0";
    assert "0.0"[..1] == "0" && "0.0"[1..] == ".0" && ".0"[1..] == "0" && "0"[..1] == "0" && "0"[1..] == "";
    assert NumberOf("1") == 1 by { assert "1"[..0] == ""; }
    assert NumberOf("0") == 0 by { assert "0"[..0] == ""; }
    assert DigitRun("1.0.0") == 1 && DigitRun("0.0") == 1 && DigitRun("0") == 1;
  }

  lemma ReadsNewTag()
    ensures Parse("1.1.0") == Some(Semver(1, 1, 0, true))
  {
    assert "1.1.0"[..1] == "1" && "1.1.0"[1..] == ".1.0" && ".1.0"[1..] == "1.0";
    assert "1.0"[..1] == "1" && "1.0"[1..] == ".0" && ".0"[1..] == "0" && "0"[..1] == "0" && "0"[1..] == "";
    assert NumberOf("1") == 1 by { assert "1"[..0] == ""; }
    assert NumberOf("0") == 0 by { assert "0"[..0] == ""; }
    assert DigitRun("1.1.0") == 1 && DigitRun("1.0") == 1 && DigitRun("0") == 1;
  }

  function Digest(): string { "sha256:" + seq(64, _ => '0') }

  lemma DigestReads()
    ensures IsDigest(Digest())
  {
    assert Digest()[..7] == "sha256:";
  }

  function OldRelease(digest: string): Release { Release("1.0.0", digest, "", false) }
  function NewRelease(): Release { Release("1.1.0", Digest(), "", false) }

  // A list with both tags, and one the running version has dropped off.
  function Both(): seq<Release> { [OldRelease("old"), NewRelease()] }
  function Later(): seq<Release> { [NewRelease()] }

  // A box on 1.0.0 with nothing else kept or counted.
  function Memory(honored: Option<int>): PersistedState {
    PersistedState("1.0.0", "1.0.0", map[], ["1.0.0"], map[], honored, None, None)
  }

  function Box(honored: Option<int>): Disk {
    Disk(Some(map[]), map[], Snapshot(None, map[], None), Memory(honored), None)
  }

  lemma TagsClimb()
    ensures IsBelow("1.0.0", "1.1.0") && !IsBelow("1.1.0", "1.0.0") && "1.0.0" != "1.1.0"
    ensures SemverOf("1.0.0") != SemverOf("1.1.0")
  {
    ReadsOldTag();
    ReadsNewTag();
    hide Parse;
    assert "1.0.0"[2] != "1.1.0"[2];
  }

  lemma Steps(x: Release, y: Release)
    requires Steppable(x, "1.0.0") && Steppable(y, "1.0.0")
    ensures SteppableOf([y], "1.0.0") == [y] && SteppableOf([x, y], "1.0.0") == [x, y]
  {
    hide Steppable;
    assert [x][..0] == [] && [y][..0] == [] && [x, y][..1] == [x];
    assert SteppableOf([], "1.0.0") == [];
    assert SteppableOf([x], "1.0.0") == [x];
    assert SteppableOf([y], "1.0.0") == [y];
    assert SteppableOf([x, y], "1.0.0") == [x] + [y];
  }

  lemma SortsOne(x: Release)
    ensures Sort([x]) == [x]
  {
    hide InOrder;
    assert [x][..0] == [] && Insert([], x) == [x];
  }

  lemma SortsTwo(x: Release, y: Release)
    ensures Sort([x, y]) == Insert([x], y)
  {
    SortsOne(x);
    hide InOrder, Insert;
    assert [x, y][..1] == [x];
  }

  lemma InsertsOne(x: Release, y: Release)
    ensures Insert([x], y) == if InOrder(x, y) then [x, y] else [y, x]
  {
    hide InOrder;
    assert [x][..0] == [] && Insert([], y) == [y];
    assert [x] + [y] == [x, y] && [y] + [x] == [y, x];
  }

  lemma SortsPair(x: Release, y: Release)
    requires InOrder(x, y) && !InOrder(y, x)
    ensures Sort([y]) == [y] && Sort([x, y]) == [x, y] && Sort([y, x]) == [x, y]
  {
    hide InOrder, Sort, Insert;
    SortsOne(y);
    SortsTwo(x, y);
    SortsTwo(y, x);
    InsertsOne(x, y);
    InsertsOne(y, x);
  }

  lemma TagsInOrder(x: Release, y: Release)
    requires x.version == "1.0.0" && y.version == "1.1.0" && !x.yanked && !y.yanked
    ensures Steppable(x, "1.0.0") && Steppable(y, "1.0.0") && InOrder(x, y) && !InOrder(y, x)
  {
    ReadsOldTag();
    ReadsNewTag();
    hide Parse;
  }

  lemma ListsAreOrdered()
    ensures SteppableOf(Both(), "1.0.0") == Both() && Canonical(Both(), "1.0.0") == Some(Both())
    ensures SteppableOf(Later(), "1.0.0") == Later() && Canonical(Later(), "1.0.0") == Some(Later())
  {
    ReadsOldTag();
    TagsInOrder(Both()[0], Both()[1]);
    Steps(Both()[0], Both()[1]);
    SortsPair(Both()[0], Both()[1]);
    hide Parse, Steppable, InOrder, SteppableOf, Sort;
  }

  // A box with no failures counted, on the first of two rungs at its floor, has the second one open.
  lemma OpenOnFirst(p: PersistedState, x: Release)
    requires p.currentVersion == p.floorVersion == x.version == "1.0.0" && p.attempts == map[]
    ensures var rungs := [x, NewRelease()];
            ToLibState(p, rungs).Some? && Open(p, rungs, ToLibState(p, rungs).value)
            && ToLibState(p, rungs).value.current == 1
  {
    TagsClimb();
    hide IsBelow, SemverOf;
    var rungs := [x, NewRelease()];
    assert rungs[..1] == [x] && [x][..0] == [];
    assert OrdinalOf([x], "1.0.0") == Some(1) && OrdinalOf(rungs, "1.0.0") == Some(1);
    NothingCounted(rungs);
    hide ByOrdinal, OrdinalOf;
  }

  lemma {:induction false} NothingCounted(rungs: seq<Release>)
    ensures ByOrdinal(map[], rungs) == map[]
  {
    if rungs != [] { NothingCounted(rungs[..|rungs| - 1]); }
  }

  lemma {:induction false} NothingToCount(rungs: seq<Release>)
    ensures ByVersion(map[], rungs) == map[]
  {
    if rungs != [] { NothingToCount(rungs[..|rungs| - 1]); }
  }

  lemma NoTies()
    ensures Untied(Both()) && Untied(Later())
  {
    TagsClimb();
    hide SemverOf, IsBelow, Digest;
    assert multiset(Both())[Both()[0]] == 1 && multiset(Both())[Both()[1]] == 1;
    assert multiset(Later())[Later()[0]] == 1;
  }

  lemma FeedsOk(desired: string, samples: seq<CanarySample>)
    ensures FeedOk(Invite(Both(), desired, None, true, samples), "1.0.0")
    ensures FeedOk(Invite(Later(), desired, None, true, samples), "1.0.0")
  {
    ListsAreOrdered();
    TagsClimb();
    NoTies();
    hide Canonical, SteppableOf, SemverOf, IsBelow, Untied, Digest;
  }

  lemma MemoryOk(honored: Option<int>)
    ensures StateOk(Memory(honored))
  {
    ReadsOldTag();
    hide Parse;
  }

  lemma Stage(honored: Option<int>)
    ensures ToLibState(Memory(honored), Both()).Some? && ToLibState(Memory(honored), Both()).value.current == 1
    ensures Set(Memory(honored), Box(honored), Both(), Both(), ToLibState(Memory(honored), Both()).value)
  {
    hide Canonical, Open, ToLibState, FeedOk, StateOk, Digest, Parse, OrdinalOf, SteppableOf, SemverOf;
    ListsAreOrdered();
    FeedsOk("", []);
    MemoryOk(honored);
    OpenOnFirst(Memory(honored), Both()[0]);
  }

  // The list the running version dropped off, with that version back on the pin's digest.
  lemma BackOnPin()
    ensures EnsureCurrent(Later(), "1.0.0", Digest()) == [OldRelease(Digest()), NewRelease()]
    ensures OrdinalOf(Later(), "1.0.0").None?
  {
    ReadsOldTag();
    DroppedOff();
    hide Parse, Sort, Digest, OrdinalOf;
    var x := OldRelease(Digest());
    SortsBack(x);
    assert Later() + [x] == [NewRelease(), x];
  }

  lemma DroppedOff()
    ensures OrdinalOf(Later(), "1.0.0").None?
  {
    TagsClimb();
    hide IsBelow, SemverOf, Digest;
  }

  lemma SortsBack(x: Release)
    requires x == OldRelease(Digest())
    ensures Sort([NewRelease(), x]) == [x, NewRelease()]
  {
    TagsInOrder(x, NewRelease());
    hide Steppable, InOrder, Sort, Digest;
    SortsPair(x, NewRelease());
  }

  // What a busy tick saves there: nothing is counted, and current and floor stay.
  lemma BusySave(s: LibState)
    requires ToLibState(Memory(None), Both()) == Some(s) && s.current == 1
    ensures var m := Settled(Memory(None), Both(), s, BusyRetry(2), true);
            m.currentVersion == m.floorVersion == "1.0.0" && m.attempts == map[]
  {
    TagsClimb();
    NothingCounted(Both());
    NothingToCount(Both());
    hide IsBelow, ByOrdinal, ByVersion, OrdinalOf, SemverOf, Digest, KeptOrdinals, KeptVersions, NewestTwo;
    assert s.attempts == map[];
    assert Both()[0].version == "1.0.0";
    assert !IsBelow("1.0.0", "1.0.0") by { BelowItself("1.0.0"); }
  }

  lemma BelowItself(v: string)
    ensures !IsBelow(v, v)
  {
  }

  method PlayStaleSave() returns (host: BoxHost, ghost a: Poll, ghost b: Poll)
    ensures PollTold(a) && PollTold(b) && b.memory == a.memory && b.before == a.after && host.disk == b.after
    ensures IsBelow(b.after.state.currentVersion, a.after.state.currentVersion)
  {
    Stage(None);
    hide Set, ToLibState, PollTold, IsBelow, Orphaned, Canonical, Open, Digest;
    host, a, b := StaleSave(Memory(None), Box(None), Both(), Control("box", 1), "1.1.0", Both(),
                            ToLibState(Memory(None), Both()).value);
  }

  method PlayLostJournal() returns (host: BoxHost, ghost a: Poll, ghost b: Poll)
    ensures PollTold(a) && PollTold(b) && b.memory == a.memory && b.before == a.after && host.disk == b.after
    ensures a.after.state.attempting == Some("1.1.0") && b.after.state.attempting.None?
    ensures a.story.healed.None? && b.story.healed.None?
  {
    Stage(Some(0));
    hide Set, ToLibState, PollTold, IsBelow, Orphaned, Canonical, Open, Digest;
    host, a, b := LostJournal(Memory(Some(0)), Box(Some(0)), Both(), Control("box", 1), "1.1.0", Both(),
                              ToLibState(Memory(Some(0)), Both()).value);
  }

  // What a busy tick leaves in the record, and the second rung open to it on the later list.
  function AfterBusy(): PersistedState
    requires ToLibState(Memory(None), Both()).Some?
  {
    Settled(Memory(None), Both(), ToLibState(Memory(None), Both()).value, BusyRetry(2), true)
  }

  lemma LaterStage()
    ensures ToLibState(Memory(None), Both()).Some?
    ensures var rungs' := [OldRelease(Digest()), NewRelease()];
            ToLibState(AfterBusy(), rungs').Some? && ToLibState(AfterBusy(), rungs').value.current == 1
            && Open(AfterBusy(), rungs', ToLibState(AfterBusy(), rungs').value)
  {
    Stage(None);
    hide ToLibState, Settled, Digest, Open, Set;
    BusySave(ToLibState(Memory(None), Both()).value);
    OpenOnFirst(AfterBusy(), OldRelease(Digest()));
  }

  method PlayCondemnedImageRuns() returns (host: BoxHost, ghost a: Poll, ghost b: Poll)
    ensures b.before == a.after && a.end == Returned(b.memory) && host.disk == b.after
    ensures b.story.settled.Some? && b.story.settled.value.outcome.RolledBack? && RunsPinned(host.disk, Digest())
  {
    Stage(None);
    LaterStage();
    FeedsOk("1.1.0", [BROKEN]);
    DigestReads();
    ListsAreOrdered();
    BackOnPin();
    ghost var p, rungs, rungs' := Memory(None), Both(), [OldRelease(Digest()), NewRelease()];
    hide Set, ToLibState, Canonical, FeedOk, Open, Settled, EnsureCurrent, IsDigest, Digest, OrdinalOf, SteppableOf,
         RunsPinned, PollTold, Box;
    host, a, b := CondemnedImageRuns(Memory(None), Box(None), Both(), Later(), "1.1.0", Digest(), rungs,
                                     ToLibState(p, rungs).value, Later(), rungs',
                                     ToLibState(AfterBusy(), rungs').value);
  }
}
