// apps/updater/src/main.ts: whole runs of polls with crashes, throws and an arbitrary booth in between.
module Runs {
  import opened Options
  import opened Semvers
  import opened Versions
  import opened Decisions
  import opened Ordinals
  import opened Hosts
  import opened Swap
  import opened Updater
  import opened Latch
  import opened Runtime
  import opened Polls

  // ---- whole runs ----------------------------------------------------------------------------

  // Every feed of the run is free of ties against every version the box may come to run.
  ghost predicate RunOk(inputs: seq<TickInput>, versions: set<string>) {
    && (forall i, c :: 0 <= i < |inputs| && c in versions ==> FeedOk(inputs[i], c))
    && forall i, e :: 0 <= i < |inputs| && inputs[i].releases.Some? && e in inputs[i].releases.value ==>
         e.version in versions
  }

  // Every list that came during the run lists w.
  ghost predicate ListedThroughout(inputs: seq<TickInput>, versions: set<string>, w: string) {
    forall i, c :: 0 <= i < |inputs| && c in versions ==> Listed(inputs[i], c, w)
  }

  // What a caller can read off the state file before a poll: it holds what memory holds, up to a
  // journal only memory has.
  predicate BeganInStep(poll: Poll) { InStep(poll.memory, poll.before.state) }

  predicate InStepThroughout(history: seq<Poll>) {
    forall i :: 0 <= i < |history| ==>
      InStep(NextMemory(history[i].memory, history[i].end, history[i].after.state), history[i].after.state)
  }

  // Both journals, memory's and the file's, can be healed.
  ghost predicate Safeguarded(d: Disk, bases: map<string, Baseline>, memory: PersistedState) {
    Guarded(d, bases, memory.attempting) && Guarded(d, bases, d.state.attempting)
  }

  ghost predicate SafeBefore(poll: Poll) { Safeguarded(poll.before, poll.bases, poll.memory) }

  ghost predicate SafeAfter(poll: Poll, bases': map<string, Baseline>) {
    Safeguarded(poll.after, bases', NextMemory(poll.memory, poll.end, poll.after.state))
  }

  // The polls after which a journal may be beyond healing. Either an exception escaped while memory
  // held a journal and the poll had begun another version's attempt or applied that one, or memory
  // and file held journals of different versions and the poll saved nothing. With no journal in
  // memory when it began, no poll is one of them.
  predicate Loses(poll: Poll) {
    var p, f, story := poll.memory, poll.before.state, poll.story;
    || (poll.end.Escaped? && p.attempting.Some? && story.began.Some? && (story.began != p.attempting || Applies(story)))
    || (!story.saved && f.attempting.Some? && p.attempting.Some? && p.attempting != f.attempting)
  }

  // What holds of every poll, in step or not: what it leaves healable, that a heal of a journal that
  // could be healed was exact, what it achieves when effects land; and, begun in step, that the
  // file's versions only climb.
  ghost predicate Faithful(k: Outlook, poll: Poll, bases': map<string, Baseline>) {
    var p, q, f := poll.memory, poll.after.state, poll.before.state;
    && Guards(p, poll.before, poll.bases, poll.end, poll.story, poll.after, bases')
    && (poll.story.healed.Some? && Guarded(poll.before, poll.bases, p.attempting) ==>
          HealWasExact(p, poll.bases, poll.story.healed.value))
    && (SafeBefore(poll) && !Loses(poll) ==> SafeAfter(poll, bases'))
    && (poll.input.releases.Some? ==>
          TickProgressed(k, p, poll.before, FeedOf(poll), poll.input, poll.end, poll.story))
    && (BeganInStep(poll) ==>
          AtLeast(q.currentVersion, f.currentVersion) && AtLeast(q.floorVersion, f.floorVersion))
  }

  // The run's bookkeeping for the watched version, while it never became current.
  ghost predicate Accounted(p0: PersistedState, log0: Log, q: PersistedState, log: Log, w: string, reached: bool) {
    !reached ==>
      && q.currentVersion != w
      && Tallied(p0, log0.recorded, q, log.recorded, w)
      && Get(q.attempts, w) >= Get(p0.attempts, w)
      && Barred(p0, log0.touched, log.touched, w)
  }

  ghost predicate PollHit(poll: Poll, w: string) {
    Hit(poll.memory, FeedOf(poll), poll.story, w)
  }

  // Some poll failed a definitive verify under w's own journal.
  ghost predicate AnyHit(history: seq<Poll>, w: string) {
    exists i :: 0 <= i < |history| && PollHit(history[i], w)
  }

  lemma HitsGrow(history: seq<Poll>, poll: Poll, w: string)
    ensures AnyHit(history + [poll], w) <==> AnyHit(history, w) || PollHit(poll, w)
  {
    hide Hit;
    var history' := history + [poll];
    assert history'[|history|] == poll;
    assert forall i :: 0 <= i < |history| ==> history'[i] == history[i];
  }

  // The polls in order, each from the memory the one before left.
  ghost predicate Chained(history: seq<Poll>, inputs: seq<TickInput>, p0: PersistedState, d0: Disk) {
    && |history| <= |inputs|
    && (forall i :: 0 <= i < |history| ==>
          && history[i].input == inputs[i] && PollTold(history[i]) && StateOk(history[i].memory)
          && PollPlaceable(history[i]))
    && (history != [] ==> history[0].memory == p0 && history[0].before == d0)
    && forall i :: 0 < i < |history| ==>
         && history[i].before == history[i - 1].after
         && history[i].memory == NextMemory(history[i - 1].memory, history[i - 1].end, history[i - 1].after.state)
  }

  // What holds of memory and file alike, in step or not.
  ghost predicate StateKept(p0: PersistedState, q: PersistedState, w: string, over: bool, versions: set<string>) {
    && StateOk(q) && q.currentVersion in versions
    && AtLeast(q.currentVersion, p0.currentVersion) && AtLeast(q.floorVersion, p0.floorVersion)
    && (Load(p0, w) <= MAX_FAILURES_BEFORE_LATCH ==>
          Load(q, w) <= MAX_FAILURES_BEFORE_LATCH + (if over then 1 else 0))
  }

  ghost predicate RunKept(p0: PersistedState, log0: Log, state: PersistedState, d: Disk, log: Log, w: string,
                          inStep: bool, over: bool, reached: bool, listed: bool, versions: set<string>)
  {
    && StampSafe(d, log.bases)
    && StateKept(p0, state, w, over, versions) && StateKept(p0, d.state, w, over, versions)
    && (inStep ==> InStep(state, d.state))
    && (inStep && listed ==> Accounted(p0, log0, state, log, w, reached))
  }

  // Polls in sequence (main.ts:150-169): a tick that returns hands its state on, a throw out of
  // runTick is logged and the loop goes on with the memory it had, and a process that died reloads
  // the state file.
  method Run(host: BoxHost, inputs: seq<TickInput>, ghost versions: set<string>, ghost w: string)
    returns (state: PersistedState, inStep: bool, ghost reached: bool, ghost history: seq<Poll>)
    requires StateOk(host.disk.state) && StampSafe(host.disk, host.log.bases)
    requires host.disk.state.currentVersion in versions && RunOk(inputs, versions)
    modifies host
    ensures |history| == |inputs| && Chained(history, inputs, old(host.disk).state, old(host.disk))
    ensures StampSafe(host.disk, host.log.bases)
    ensures StateKept(old(host.disk).state, state, w, AnyHit(history, w), versions)
    ensures StateKept(old(host.disk).state, host.disk.state, w, AnyHit(history, w), versions)
    ensures inStep <==> InStepThroughout(history)
    ensures AllFaithful(OutlookOf(host), history, host.log.bases)
    ensures old(Safeguarded(host.disk, host.log.bases, host.disk.state)) && NothingLost(history) ==>
              && Safeguarded(host.disk, host.log.bases, state)
              && AllExact(history)
    ensures inStep && ListedThroughout(inputs, versions, w) ==>
              Accounted(old(host.disk).state, old(host.log), state, host.log, w, reached)
    ensures inStep && ListedThroughout(inputs, versions, w) && !reached
            && Load(old(host.disk).state, w) <= MAX_FAILURES_BEFORE_LATCH ==>
              multiset(host.log.recorded)[w] + Get(old(host.disk).state.attempts, w)
                <= multiset(old(host.log).recorded)[w] + MAX_FAILURES_BEFORE_LATCH
                   + (if AnyHit(history, w) then 1 else 0)
  {
    hide StateOk, Guards, StampSafe, RunOk, ListedThroughout, Chained, StateKept, RunKept, Faithful, Hit, Told,
         TickKept, FeedOk, Listed, Accounted, Placeable, InStepThroughout, InStep, AllFaithful, HealWasExact,
         Safeguarded, NothingLost, AllExact, TickProgressed, Guarded, RunSafe, Healable, Untouched, Resumes, Canonical,
         AnyHit;
    ghost var p0, d0, log0 := host.disk.state, host.disk, host.log;
    ghost var listed, over := ListedThroughout(inputs, versions, w), false;
    state, inStep, reached, history := host.disk.state, true, host.disk.state.currentVersion == w, [];
    RunAtFirst(OutlookOf(host), d0, log0, w, listed, versions, inputs);
    var i := 0;
    while i < |inputs|
      invariant 0 <= i == |history| <= |inputs|
      invariant Chained(history, inputs, p0, d0)
      invariant Resumes(history, p0, d0, state, host.disk)
      invariant over == AnyHit(history, w)
      invariant inStep <==> InStepThroughout(history)
      invariant AllFaithful(OutlookOf(host), history, host.log.bases)
      invariant RunSafe(d0, log0.bases, history, state, host.disk, host.log.bases)
      invariant RunKept(p0, log0, state, host.disk, host.log, w, inStep, over, reached, listed, versions)
    {
      ghost var d, log := host.disk, host.log;
      ghost var before := state;
      BeginPoll(p0, log0, state, d, log, w, inStep, over, reached, listed, versions, inputs, i);
      var end;
      ghost var story;
      end, story := RunTick(host, state, inputs[i], w);
      ghost var poll := Poll(state, inputs[i], d, log.bases, end, story, host.disk);
      match end {
        case Returned(m) => state := m;
        case Escaped =>
        case Dead => state := host.disk.state;
      }
      var follows := InStep(state, host.disk.state);
      PollKeeps(p0, log0, before, d, log, poll, host.log, w, inStep, over, reached, listed, versions, state, follows);
      PollFaithful(OutlookOf(host), before, log, poll, host.log, w, Listed(inputs[i], before.currentVersion, w));
      ExtendHistory(OutlookOf(host), history, inputs, p0, d0, before, d, log.bases, poll, state, host.log.bases, w,
                    inStep);
      ExtendSafe(d0, log0.bases, OutlookOf(host), history, before, d, log.bases, poll, state, host.log.bases);
      HitsGrow(history, poll, w);
      over := over || PollHit(poll, w);
      inStep := inStep && follows;
      reached := reached || state.currentVersion == w;
      history := history + [poll];
      i := i + 1;
    }
    LatchBound(p0, log0, state, host.disk, host.log, w, inStep, over, reached, listed, versions);
    SafeToTheEnd(d0, log0.bases, history, state, host.disk, host.log.bases);
  }

  // No poll lost a guard.
  predicate NothingLost(history: seq<Poll>) {
    forall i :: 0 <= i < |history| ==> !Loses(history[i])
  }

  ghost predicate AllExact(history: seq<Poll>) {
    forall i :: 0 <= i < |history| ==>
      SafeBefore(history[i])
      && (history[i].story.healed.Some? ==>
          HealWasExact(history[i].memory, history[i].bases, history[i].story.healed.value))
  }

  ghost predicate RunSafe(d0: Disk, b0: map<string, Baseline>, history: seq<Poll>, state: PersistedState, d: Disk,
                          bases: map<string, Baseline>)
  {
    Safeguarded(d0, b0, d0.state) && NothingLost(history) ==> Safeguarded(d, bases, state) && AllExact(history)
  }

  lemma SafeToTheEnd(d0: Disk, b0: map<string, Baseline>, history: seq<Poll>, state: PersistedState, d: Disk,
                     bases: map<string, Baseline>)
    requires RunSafe(d0, b0, history, state, d, bases)
    ensures Safeguarded(d0, b0, d0.state) && NothingLost(history) ==> Safeguarded(d, bases, state) && AllExact(history)
  {
  }

  lemma ExtendSafe(d0: Disk, b0: map<string, Baseline>, k: Outlook, history: seq<Poll>, p: PersistedState, d: Disk,
                   bases: map<string, Baseline>, poll: Poll, n: PersistedState, bases': map<string, Baseline>)
    requires RunSafe(d0, b0, history, p, d, bases)
    requires poll.memory == p && poll.before == d && poll.bases == bases && Faithful(k, poll, bases')
    requires n == NextMemory(p, poll.end, poll.after.state)
    ensures RunSafe(d0, b0, history + [poll], n, poll.after, bases')
  {
    hide Guards, TickProgressed, HealWasExact, Guarded, AtLeast;
    var history' := history + [poll];
    assert history'[|history|] == poll;
    assert forall i :: 0 <= i < |history| ==> history'[i] == history[i];
    if Safeguarded(d0, b0, d0.state) && NothingLost(history') {
      assert NothingLost(history) && !Loses(history'[|history|]);
      assert SafeBefore(poll);
    }
  }

  // A poll that loses no guard leaves both journals healable that were.
  lemma GuardsCarry(poll: Poll, bases': map<string, Baseline>)
    requires PollTold(poll) && SafeBefore(poll) && !Loses(poll)
    requires Guards(poll.memory, poll.before, poll.bases, poll.end, poll.story, poll.after, bases')
    ensures SafeAfter(poll, bases')
  {
    hide Told, StampSafe, Healable;
    var p, f := poll.memory, poll.after.state;
    JournalAfter(p, poll.before, FeedOf(poll), poll.input, poll.end, poll.story, f);
    HandedBack(p, poll.before, FeedOf(poll), poll.input, poll.end, poll.story, f);
    if p.attempting.Some? && poll.story.began.None? { assert Undisturbed(p, poll.story, p.attempting.value); }
    if p.attempting.Some? && poll.story.began == p.attempting && !Applies(poll.story) {
      assert Undisturbed(p, poll.story, p.attempting.value);
    }
    var g := poll.before.state;
    if !poll.story.saved && g.attempting.Some? { assert Undisturbed(p, poll.story, g.attempting.value); }
  }

  // The loop stands where its last poll left it.
  ghost predicate Resumes(history: seq<Poll>, p0: PersistedState, d0: Disk, state: PersistedState, d: Disk) {
    if history == [] then state == p0 && d == d0
    else
      var last := history[|history| - 1];
      d == last.after && state == NextMemory(last.memory, last.end, last.after.state)
  }

  ghost predicate AllFaithful(k: Outlook, history: seq<Poll>, bases: map<string, Baseline>) {
    forall i :: 0 <= i < |history| ==> Faithful(k, history[i], BasesAfter(history, i, bases))
  }

  // The baselines once poll i is over.
  ghost function BasesAfter(history: seq<Poll>, i: nat, bases: map<string, Baseline>): map<string, Baseline> {
    if i + 1 < |history| then history[i + 1].bases else bases
  }

  lemma RunAtFirst(k: Outlook, d: Disk, log: Log, w: string, listed: bool, versions: set<string>,
                   inputs: seq<TickInput>)
    requires StateOk(d.state) && StampSafe(d, log.bases) && d.state.currentVersion in versions
    ensures !AnyHit([], w)
    ensures RunKept(d.state, log, d.state, d, log, w, true, false, d.state.currentVersion == w, listed, versions)
    ensures Chained([], inputs, d.state, d) && Resumes([], d.state, d, d.state, d)
    ensures InStepThroughout([]) && AllFaithful(k, [], log.bases)
    ensures RunSafe(d, log.bases, [], d.state, d, log.bases)
  {
    hide StampSafe, Guarded, StateOk, AtLeast, Parse, Load;
    StateParses(d.state);
    FloorParses(d.state);
    AtLeastItself(d.state.currentVersion);
    AtLeastItself(d.state.floorVersion);
  }

  lemma FloorParses(p: PersistedState)
    requires StateOk(p)
    ensures Parse(p.floorVersion).Some?
  {
  }

  lemma BeginPoll(p0: PersistedState, log0: Log, state: PersistedState, d: Disk, log: Log, w: string, inStep: bool,
                  over: bool, reached: bool, listed: bool, versions: set<string>, inputs: seq<TickInput>, i: nat)
    requires RunKept(p0, log0, state, d, log, w, inStep, over, reached, listed, versions)
    requires i < |inputs| && RunOk(inputs, versions) && listed == ListedThroughout(inputs, versions, w)
    ensures StampSafe(d, log.bases) && StateOk(state) && FeedOk(inputs[i], state.currentVersion)
    ensures Placeable(Feed(inputs[i], state.currentVersion), state.currentVersion)
    ensures inStep ==> InStep(state, d.state)
    ensures listed ==> Listed(inputs[i], state.currentVersion, w)
    ensures forall e :: e in Feed(inputs[i], state.currentVersion) ==> e.version in versions
  {
    hide FeedOk, Listed, StampSafe, InStep, Accounted, AtLeast, Load, Parse, SemverOf, KeptOk, Steppable, Untied,
         SteppableOf;
    StateParses(state);
    if inputs[i].releases.Some? {
      ListingFacts(inputs[i], state.currentVersion);
      FeedMembers(inputs[i], state.currentVersion);
    } else {
      assert Placeable([], state.currentVersion);
    }
  }

  lemma FeedMembers(input: TickInput, current: string)
    requires input.releases.Some? && Parse(current).Some? && FeedOk(input, current)
    ensures forall e :: e in Feed(input, current) ==> e in input.releases.value
  {
    hide Ladder, Steppable, SemverOf, Untied, Parse, Sort;
    CanonicalIsLadder(input.releases.value, current);
  }

  lemma KeptStep(p0: PersistedState, p: PersistedState, log: Log, q: PersistedState, log': Log, w: string, listed: bool,
                 hit: bool, over: bool, versions: set<string>)
    requires StateKept(p0, p, w, over, versions) && Kept(p, log, q, log', w, listed, hit)
             && q.currentVersion in versions
    ensures StateKept(p0, q, w, over || hit, versions)
  {
    hide StateOk, AtLeast, Load, Tallied, Barred;
    AtLeastTransitive(q.currentVersion, p.currentVersion, p0.currentVersion);
    AtLeastTransitive(q.floorVersion, p.floorVersion, p0.floorVersion);
  }

  lemma OverMore(p0: PersistedState, q: PersistedState, w: string, over: bool, hit: bool, versions: set<string>)
    requires StateKept(p0, q, w, over, versions)
    ensures StateKept(p0, q, w, over || hit, versions)
  {
    hide StateOk, AtLeast;
  }

  // Every state a poll writes or hands back runs a version the run may come to run.
  lemma PollVersions(p: PersistedState, poll: Poll, versions: set<string>)
    requires PollTold(poll) && StateOk(poll.memory) && PollPlaceable(poll) && poll.memory == p
             && p.currentVersion in versions
    requires forall e :: e in FeedOf(poll) ==> e.version in versions
    ensures Latest(p, poll.story, poll.after.state).currentVersion in versions
    ensures poll.end.Returned? ==> poll.end.state.currentVersion in versions
  {
    hide Told, StateOk, Placeable, IsBelow;
    VersionsAfter(p, poll.before, FeedOf(poll), poll.input, poll.end, poll.story, poll.after.state);
    HandedBack(p, poll.before, FeedOf(poll), poll.input, poll.end, poll.story, poll.after.state);
  }

  lemma PollStates(p0: PersistedState, p: PersistedState, log: Log, poll: Poll, log': Log, w: string, listed: bool,
                   over: bool, versions: set<string>)
    requires poll.memory == p && PollTold(poll) && PollPlaceable(poll)
    requires StateKept(p0, p, w, over, versions) && StateKept(p0, poll.before.state, w, over, versions)
    requires forall e :: e in FeedOf(poll) ==> e.version in versions
    requires TickKept(p, log, poll.end, Latest(p, poll.story, poll.after.state), log', w, listed, PollHit(poll, w))
    ensures StateKept(p0, NextMemory(p, poll.end, poll.after.state), w, over || PollHit(poll, w), versions)
    ensures StateKept(p0, poll.after.state, w, over || PollHit(poll, w), versions)
  {
    hide StateOk, AtLeast, Load, Kept, Told, PollHit, Placeable;
    var hit, q := PollHit(poll, w), Latest(p, poll.story, poll.after.state);
    HandedBack(p, poll.before, FeedOf(poll), poll.input, poll.end, poll.story, poll.after.state);
    PollVersions(p, poll, versions);
    KeptStep(p0, p, log, q, log', w, listed, hit, over, versions);
    OverMore(p0, p, w, over, hit, versions);
    OverMore(p0, poll.before.state, w, over, hit, versions);
    if poll.end.Returned? { KeptStep(p0, p, log, poll.end.state, log', w, listed, hit, over, versions); }
  }

  lemma TickAccounted(p0: PersistedState, log0: Log, p: PersistedState, log: Log, q: PersistedState, log': Log,
                      w: string, hit: bool)
    requires Accounted(p0, log0, p, log, w, false) && Kept(p, log, q, log', w, true, hit) && q.currentVersion != w
    ensures Accounted(p0, log0, q, log', w, false)
  {
    hide StateOk, AtLeast, LatchStep;
    var more := log'.recorded[|log.recorded|..];
    assert log'.recorded == log.recorded + more;
    assert multiset(log'.recorded) == multiset(log.recorded) + multiset(more);
  }

  lemma AccountedLike(p0: PersistedState, log0: Log, q: PersistedState, q': PersistedState, log: Log, w: string,
                      reached: bool)
    requires Accounted(p0, log0, q, log, w, reached)
    requires q'.currentVersion == q.currentVersion && q'.attempts == q.attempts
    ensures Accounted(p0, log0, q', log, w, reached)
  {
  }

  lemma ReachedIsAccounted(p0: PersistedState, log0: Log, q: PersistedState, log: Log, w: string)
    ensures Accounted(p0, log0, q, log, w, true)
  {
  }

  lemma PollAccounted(p0: PersistedState, log0: Log, p: PersistedState, log: Log, poll: Poll, log': Log, w: string,
                      reached: bool)
    requires poll.memory == p && PollTold(poll) && InStep(p, poll.before.state)
    requires InStep(NextMemory(p, poll.end, poll.after.state), poll.after.state)
    requires Accounted(p0, log0, p, log, w, reached)
    requires TickKept(p, log, poll.end, Latest(p, poll.story, poll.after.state), log', w, true, PollHit(poll, w))
    ensures var n := NextMemory(p, poll.end, poll.after.state);
            Accounted(p0, log0, n, log', w, reached || n.currentVersion == w)
  {
    hide Kept, Told, PollHit, Accounted;
    var n, q, hit := NextMemory(p, poll.end, poll.after.state), Latest(p, poll.story, poll.after.state),
        PollHit(poll, w);
    HandedBack(p, poll.before, FeedOf(poll), poll.input, poll.end, poll.story, poll.after.state);
    if reached || n.currentVersion == w {
      ReachedIsAccounted(p0, log0, n, log', w);
    } else if poll.end.Returned? {
      TickAccounted(p0, log0, p, log, n, log', w, hit);
    } else {
      assert n.currentVersion == q.currentVersion && n.attempts == q.attempts;
      TickAccounted(p0, log0, p, log, q, log', w, hit);
      AccountedLike(p0, log0, q, n, log', w, false);
    }
  }

  lemma PollFaithful(k: Outlook, p: PersistedState, log: Log, poll: Poll, log': Log, w: string, listed: bool)
    requires poll.memory == p && PollTold(poll) && StateOk(p)
    requires Guards(p, poll.before, poll.bases, poll.end, poll.story, poll.after, log'.bases)
    requires poll.story.healed.Some? && Guarded(poll.before, poll.bases, p.attempting) ==>
               HealWasExact(p, poll.bases, poll.story.healed.value)
    requires poll.input.releases.Some? ==>
               TickProgressed(k, p, poll.before, FeedOf(poll), poll.input, poll.end, poll.story)
    requires TickKept(p, log, poll.end, Latest(p, poll.story, poll.after.state), log', w, listed, PollHit(poll, w))
    ensures Faithful(k, poll, log'.bases)
  {
    hide Told, PollHit, KeptOk, HealWasExact, Guards, Guarded, AtLeast, LatchStep, Tallied, Barred, Parse,
         TickProgressed, SafeBefore, SafeAfter, Loses;
    HandedBack(p, poll.before, FeedOf(poll), poll.input, poll.end, poll.story, poll.after.state);
    if SafeBefore(poll) && !Loses(poll) { GuardsCarry(poll, log'.bases); }
    AtLeastItself(p.currentVersion);
    AtLeastItself(p.floorVersion);
  }

  lemma PollKeeps(p0: PersistedState, log0: Log, p: PersistedState, d: Disk, log: Log, poll: Poll, log': Log, w: string,
                  inStep: bool, over: bool, reached: bool, listed: bool, versions: set<string>, n: PersistedState,
                  follows: bool)
    requires RunKept(p0, log0, p, d, log, w, inStep, over, reached, listed, versions)
    requires poll.memory == p && poll.before == d && poll.bases == log.bases && PollTold(poll) && PollPlaceable(poll)
    requires StampSafe(poll.after, log'.bases)
    requires forall e :: e in FeedOf(poll) ==> e.version in versions
    requires listed ==> Listed(poll.input, p.currentVersion, w)
    requires TickKept(p, log, poll.end, Latest(p, poll.story, poll.after.state), log', w,
                      Listed(poll.input, p.currentVersion, w), PollHit(poll, w))
    requires n == NextMemory(p, poll.end, poll.after.state)
    requires follows == InStep(n, poll.after.state)
    ensures RunKept(p0, log0, n, poll.after, log', w, inStep && follows, over || PollHit(poll, w),
                    reached || n.currentVersion == w, listed, versions)
  {
    hide StampSafe, StateOk, PollTold, PollPlaceable, PollHit, TickKept, Accounted, Listed, Guarded, HealWasExact,
         AtLeast, Load, InStep;
    PollStates(p0, p, log, poll, log', w, Listed(poll.input, p.currentVersion, w), over, versions);
    if inStep && follows && listed { PollAccounted(p0, log0, p, log, poll, log', w, reached); }
  }

  lemma ExtendHistory(k: Outlook, history: seq<Poll>, inputs: seq<TickInput>, p0: PersistedState, d0: Disk,
                      p: PersistedState, d: Disk, bases: map<string, Baseline>, poll: Poll, n: PersistedState,
                      bases': map<string, Baseline>, w: string, inStep: bool)
    requires Chained(history, inputs, p0, d0) && Resumes(history, p0, d0, p, d) && |history| < |inputs|
    requires poll.memory == p && poll.before == d && poll.bases == bases && poll.input == inputs[|history|]
    requires PollTold(poll) && StateOk(p) && PollPlaceable(poll) && n == NextMemory(p, poll.end, poll.after.state)
    requires AllFaithful(k, history, bases) && Faithful(k, poll, bases')
    requires inStep <==> InStepThroughout(history)
    ensures var history' := history + [poll];
            && Chained(history', inputs, p0, d0) && Resumes(history', p0, d0, n, poll.after)
            && AllFaithful(k, history', bases')
            && (InStepThroughout(history') <==> inStep && InStep(n, poll.after.state))
            && ((exists k :: 0 <= k < |history'| && PollHit(history'[k], w)) <==>
                  (exists k :: 0 <= k < |history| && PollHit(history[k], w)) || PollHit(poll, w))
  {
    hide PollTold, StateOk, PollPlaceable, PollHit, Chained, AllFaithful, InStep, Faithful;
    var history' := history + [poll];
    ExtendChain(history, inputs, p0, d0, p, d, poll);
    ExtendFaithful(k, history, poll, bases');
    assert forall k :: 0 <= k < |history| ==> history'[k] == history[k];
    assert history'[|history|] == poll;
  }

  lemma ExtendChain(history: seq<Poll>, inputs: seq<TickInput>, p0: PersistedState, d0: Disk, p: PersistedState,
                    d: Disk, poll: Poll)
    requires Chained(history, inputs, p0, d0) && Resumes(history, p0, d0, p, d) && |history| < |inputs|
    requires poll.memory == p && poll.before == d && poll.input == inputs[|history|]
    requires PollTold(poll) && StateOk(p) && PollPlaceable(poll)
    ensures Chained(history + [poll], inputs, p0, d0)
  {
    hide PollTold, StateOk, PollPlaceable, NextMemory;
  }

  lemma ExtendFaithful(k: Outlook, history: seq<Poll>, poll: Poll, bases': map<string, Baseline>)
    requires AllFaithful(k, history, poll.bases) && Faithful(k, poll, bases')
    ensures AllFaithful(k, history + [poll], bases')
  {
    hide Faithful;
    var history' := history + [poll];
    forall i | 0 <= i < |history'|
      ensures Faithful(k, history'[i], BasesAfter(history', i, bases'))
    {
      if i < |history| {
        assert Faithful(k, history[i], BasesAfter(history, i, poll.bases));
        assert BasesAfter(history', i, bases') == BasesAfter(history, i, poll.bases);
      }
    }
  }

  lemma LatchBound(p0: PersistedState, log0: Log, state: PersistedState, d: Disk, log: Log, w: string,
                   inStep: bool, over: bool, reached: bool, listed: bool, versions: set<string>)
    requires RunKept(p0, log0, state, d, log, w, inStep, over, reached, listed, versions)
    ensures StampSafe(d, log.bases)
    ensures StateKept(p0, state, w, over, versions) && StateKept(p0, d.state, w, over, versions)
    ensures inStep ==> InStep(state, d.state)
    ensures inStep && listed ==> Accounted(p0, log0, state, log, w, reached)
    ensures inStep && listed && !reached && Load(p0, w) <= MAX_FAILURES_BEFORE_LATCH ==>
              multiset(log.recorded)[w] + Get(p0.attempts, w)
                <= multiset(log0.recorded)[w] + MAX_FAILURES_BEFORE_LATCH + (if over then 1 else 0)
  {
    hide StampSafe, InStep, StateOk, AtLeast;
  }

  // ---- the latch's edge ---------------------------------------------------------------------

  // Why the latch is one more after a hit: the failed verification counts while the crashed
  // attempt of the same version still waits for its heal, and the heal counts it too.
  lemma StrainedLatchOverflows(p: PersistedState, canonical: seq<Release>, s: LibState, w: string)
    requires Ladder(canonical) && ToLibState(p, canonical) == Some(s)
    requires s.current < |canonical| && canonical[s.current].version == w
    requires p.attempting == Some(w) && Get(p.attempts, w) == MAX_FAILURES_BEFORE_LATCH - 1
    ensures !IsPoisoned(s.attempts, s.current + 1, MAX_FAILURES_BEFORE_LATCH)
    ensures Overflows(p, canonical, VerifyFailed(s.current + 1), w)
    ensures var failed := Settled(p, canonical, s, VerifyFailed(s.current + 1), false);
            && failed.attempting == Some(w)
            && Get(failed.attempts, w) == MAX_FAILURES_BEFORE_LATCH
            && Get(Counted(failed, w).attempts, w) == MAX_FAILURES_BEFORE_LATCH + 1
  {
    hide Parse, IsBelow, Ladder, ToLibState, ByVersion, NewestTwo, KeptVersions;
    LibCurrent(p, canonical);
    assert canonical[s.current] in canonical;
    var i := ListedAt(p, canonical, s, w);
    AttemptsStep(p, canonical, VerifyFailed(s.current + 1), i);
  }
}
