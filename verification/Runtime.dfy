// apps/updater/src/runtime.ts: one poll of the real loop over the host, from whatever memory the
// loop holds, with every effect free to throw or to be the last.
module Runtime {
  import opened Options
  import opened Semvers
  import opened Versions
  import opened Decisions
  import opened Ordinals
  import opened StateMaps
  import opened Hosts
  import opened Swap
  import opened Updater
  import opened Latch

  // ---- one poll -------------------------------------------------------------------------

  datatype TickEnd = Returned(state: PersistedState) | Escaped | Dead

  // Where an exception that left runTick came from.
  datatype Cause = BoothSilent | HealUnsaved | RestartFailed | MarksUnsaved | EndUnsaved | AfterSave

  // What one tick did: whether it replaced the state file, the heal it finished, the digest it
  // took from the pin for a vanished current version, the attempt it journaled on disk, the
  // outcome it saved, whether it saved new marks, and what made it throw.
  datatype Healing = Healing(disk: Disk, current: Release)
  datatype Story = Story(
    saved: bool, healed: Option<Healing>, synthesized: Option<string>, began: Option<string>,
    settled: Option<Settlement>, marked: bool, cause: Option<Cause>)

  const Quiet := Story(false, None, None, None, None, false, None)

  // The file is what memory holds, or only lacks the journal memory holds: what a caller can
  // read off the state file.
  predicate InStep(p: PersistedState, f: PersistedState) {
    f == p || f == p.(attempting := None)
  }

  predicate Applies(story: Story) { story.settled.Some? && story.settled.value.outcome.Applied? }

  // A tick from memory `p` leaves version u's series alone: it had no other version's journal to
  // heal, and it began no attempt but one of u that was not applied.
  predicate Undisturbed(p: PersistedState, story: Story, u: string) {
    && (p.attempting.Some? ==> p.attempting.value == u)
    && (story.began.Some? ==> story.began.value == u && !Applies(story))
  }

  // What a tick leaves healable: every series it left alone, the attempt it began unless it was
  // applied, and the journal it hands back if the one it was handed was.
  ghost predicate Guards(p: PersistedState, d0: Disk, b0: map<string, Baseline>, end: TickEnd, story: Story,
                         d: Disk, b: map<string, Baseline>)
  {
    && StampSafe(d, b)
    && (forall u :: Guarded(d0, b0, Some(u)) && Undisturbed(p, story, u) ==> Guarded(d, b, Some(u)))
    && (story.began.Some? && !Applies(story) ==> Guarded(d, b, story.began))
    && (end.Returned? && Guarded(d0, b0, p.attempting) ==> Guarded(d, b, end.state.attempting))
  }

  // Once the outcome was known only the state file changed, but for a retired bundle apply.
  ghost predicate Untouched(story: Story, d: Disk) {
    story.settled.Some? && !(Applies(story) && story.settled.value.bundle.Some?) ==>
      d == story.settled.value.disk.(state := d.state)
  }

  // honorRestartOp's marks, once the op went through.
  function Honored(state: PersistedState, control: Option<Control>): PersistedState {
    if control.None? || (state.boxId.Some? && state.boxId != Some(control.value.boxId)) then state
    else state.(boxId := Some(control.value.boxId), honoredRestart := Some(control.value.restartGeneration))
  }

  // The verified control asks for a restart above the mark.
  predicate RestartDue(state: PersistedState, control: Option<Control>) {
    && control.Some? && (state.boxId.None? || state.boxId == Some(control.value.boxId))
    && state.honoredRestart.Some? && control.value.restartGeneration > state.honoredRestart.value
  }

  // The op gets as far as saving a new mark, and that save throws.
  ghost predicate MarkBalks(host: BoxHost, state: PersistedState, control: Option<Control>, restartedThisTick: bool) {
    && host.Balks(MarksSave) && Honored(state, control) != state
    && (restartedThisTick || host.Lands(Restarting) || !RestartDue(state, control))
  }

  lemma HonoredIsMarks(p: PersistedState, q: PersistedState, control: Option<Control>)
    ensures SameButMarks(p, Honored(p, control)) && Honored(p, control).attempting == p.attempting
    ensures RestartDue(p, control) ==> Honored(p, control) != p
    ensures p.boxId == q.boxId && p.honoredRestart == q.honoredRestart ==>
              (Honored(p, control) == p <==> Honored(q, control) == q)
                  && RestartDue(p, control) == RestartDue(q, control)
  {
  }

  // honorRestartOp (runtime.ts:56-84): the state it saves carries the journal along.
  method HonorRestartOp(host: BoxHost, state: PersistedState, control: Option<Control>, restartedThisTick: bool)
    returns (r: Signal, next: PersistedState, ghost cause: Cause)
    modifies host`disk, host`clock, host`saves
    ensures r.Fine? ==> next == Honored(state, control)
    ensures var saved := r.Fine? && Honored(state, control) != state;
            && host.disk == (if saved then old(host.disk).(state := next) else old(host.disk))
            && host.saves == old(host.saves) + (if saved then 1 else 0)
    ensures r.Thrown? ==> (cause.RestartFailed? && RestartDue(state, control) && !restartedThisTick)
                          || (cause.MarksUnsaved? && Honored(state, control) != state)
    ensures host.OpLands() ==> r.Fine?
    ensures host.Balks(Restarting) && RestartDue(state, control) && !restartedThisTick ==>
              r.Thrown? && cause.RestartFailed?
    ensures MarkBalks(host, state, control, restartedThisTick) ==> r.Thrown? && cause.MarksUnsaved?
  {
    r, next, cause := Fine, state, RestartFailed;
    if control.None? { return; }
    var c := control.value;
    if state.boxId.Some? && c.boxId != state.boxId.value { return; }
    if state.boxId.None? { next := next.(boxId := Some(c.boxId)); }
    if next.honoredRestart.None? || c.restartGeneration < next.honoredRestart.value {
      next := next.(honoredRestart := Some(c.restartGeneration));
    } else if c.restartGeneration > next.honoredRestart.value {
      if !restartedThisTick {
        r := host.External(Restarting);
        if !r.Fine? { return; }
      }
      next := next.(honoredRestart := Some(c.restartGeneration));
    }
    if next != state {
      r := host.SaveState(MarksSave, next);
      cause := MarksUnsaved;
    }
  }

  function EndOf(r: Signal, state: PersistedState): TickEnd {
    match r case Fine => Returned(state) case Thrown => Escaped case Died => Dead
  }

  // The degraded early returns: heartbeat, honor the op, hold.
  method HoldTick(host: BoxHost, persisted: PersistedState, input: TickInput) returns (end: TickEnd, ghost story: Story)
    modifies host`disk, host`clock, host`saves
    ensures host.disk == old(host.disk).(state := host.disk.state)
    ensures story == Quiet.(saved := story.saved, marked := story.saved, cause := story.cause)
    ensures host.saves == old(host.saves) + (if story.saved then 1 else 0)
    ensures host.disk.state == if story.saved then Honored(persisted, ControlOf(input)) else old(host.disk).state
    ensures story.saved ==> end.Returned?
    ensures end.Returned? ==> end.state == Honored(persisted, ControlOf(input))
                              && (story.saved <==> end.state != persisted)
    ensures end.Escaped? <==> story.cause.Some?
    ensures match story.cause
            case Some(RestartFailed) => RestartDue(persisted, ControlOf(input))
            case Some(MarksUnsaved) => Honored(persisted, ControlOf(input)) != persisted
            case Some(c) => c.BoothSilent?
            case None => true
    ensures host.Calm() && host.OpLands() && input.heartbeat.Some? ==> end.Returned?
  {
    story := Quiet;
    var r := host.External(Beating);
    if r.Died? { return Dead, story; }
    if r.Thrown? || input.heartbeat.None? { return Escaped, Quiet.(cause := Some(BoothSilent)); }
    var next;
    ghost var cause;
    r, next, cause := HonorRestartOp(host, persisted, input.heartbeat.value.control, false);
    var saved := r.Fine? && next != persisted;
    story := Quiet.(saved := saved, marked := saved, cause := if r.Thrown? then Some(cause) else None);
    return EndOf(r, next), story;
  }

  // The end-of-tick save, and what the run's log learns from it.
  method SettleTick(host: BoxHost, persisted: PersistedState, canonical: seq<Release>, s: LibState,
                    o: Outcome, journaled: bool) returns (r: Signal, next: PersistedState)
    modifies host
    ensures next == Settled(persisted, canonical, s, o, journaled)
    ensures host.disk == if r.Fine? then old(host.disk).(state := next) else old(host.disk)
    ensures host.saves == old(host.saves) + (if r.Fine? then 1 else 0)
    ensures host.log == if r.Fine? then
                          old(host.log).(recorded := old(host.log).recorded + RecordedVersions(canonical, o))
                        else old(host.log)
    ensures host.Calm() ==> r.Fine?
  {
    hide FromLibState, NextLib;
    next := FromLib(NextLib(s, o), canonical, persisted);
    if persisted.attempting.Some? && !journaled { next := next.(attempting := persisted.attempting); }
    r := host.SaveState(EndSave, next);
    if r.Fine? {
      host.log := host.log.(recorded := host.log.recorded + RecordedVersions(canonical, o));
    }
  }

  // After the save: the op, then the bundle's snapshot and the updater's own pin. Each of them
  // may throw with the saved state already on disk.
  method CloseTick(host: BoxHost, next: PersistedState, o: Outcome, bundle: Option<Bundle>,
                   control: Option<Control>, restartedThisTick: bool)
    returns (end: TickEnd, ghost marked: bool, ghost cause: Option<Cause>)
    requires StampSafe(host.disk, host.log.bases) && next == host.disk.state
    modifies host`disk, host`clock, host`saves
    ensures StampSafe(host.disk, host.log.bases)
    ensures !(o.Applied? && bundle.Some?) ==> host.disk == old(host.disk).(state := host.disk.state)
    ensures host.disk.state == if marked then Honored(next, control) else next
    ensures marked ==> Honored(next, control) != next
    ensures host.saves == old(host.saves) + (if marked then 1 else 0)
    ensures end.Returned? ==> end.state == host.disk.state && end.state == Honored(next, control)
    ensures end.Escaped? <==> cause.Some?
    ensures match cause
            case Some(RestartFailed) => !marked && RestartDue(next, control) && !restartedThisTick
            case Some(MarksUnsaved) => !marked && Honored(next, control) != next
            case Some(c) => c.AfterSave? && (marked <==> Honored(next, control) != next)
            case None => true
    ensures host.Calm() && host.OpLands() && (o.Applied? && bundle.Some? ==> old(host.disk).env.Some?) ==> end.Returned?
    ensures MarkBalks(host, next, control, restartedThisTick) ==> cause == Some(MarksUnsaved)
  {
    cause := None;
    var r, next';
    ghost var c;
    r, next', c := HonorRestartOp(host, next, control, restartedThisTick);
    marked := r.Fine? && Honored(next, control) != next;
    if r.Thrown? { cause := Some(c); }
    if !r.Fine? { return EndOf(r, next'), marked, cause; }
    if o.Applied? && bundle.Some? {
      r := host.ClearDeploySnapshot();
      if r.Fine? && bundle.value.updaterChanged {
        r := host.PinEnv(UPDATER_PIN, bundle.value.updaterRef);
        if r.Fine? {
          r := host.External(Recreating);
          if r.Thrown? { r := Fine; }
        }
      }
    } else if o.UpToDate? {
      r := host.External(Reconciling);
    }
    if r.Thrown? { cause := Some(AfterSave); }
    return EndOf(r, next'), marked, cause;
  }

  // ---- what one poll tells ------------------------------------------------------------------

  predicate Moved(story: Story) {
    story.began.Some? || story.settled.Some? || story.marked
  }

  // The state a tick's saves add up to, from memory `p` once the heal is behind it.
  function Written(p: PersistedState, rungs: seq<Release>, story: Story, control: Option<Control>): PersistedState {
    var base := match story.settled
                case Some(t) => (match ToLibState(p, rungs)
                                 case Some(s) => Settled(p, rungs, s, t.outcome, story.began.Some?)
                                 case None => p)
                case None => if story.began.Some? then p.(attempting := story.began) else p;
    if story.marked then Honored(base, control) else base
  }

  // Which exception escapes where, and what had been saved by then.
  predicate CauseOk(p: PersistedState, control: Option<Control>, story: Story, healed: bool) {
    match story.cause
    case None => true
    case Some(BoothSilent) => !Moved(story)
    case Some(HealUnsaved) => !Moved(story)
    case Some(RestartFailed) => !story.marked && RestartDue(p, control)
                                && (story.settled.Some? ==> !healed && story.began.None?)
    case Some(MarksUnsaved) => !story.marked && Honored(p, control) != p
    case Some(EndUnsaved) => !story.marked && story.settled.None?
    case Some(AfterSave) => story.settled.Some? && (story.marked <==> Honored(p, control) != p)
  }

  // The decision asks for a swap: the booth was heard, it wants a version above, the next rung is not
  // latched, its verification vouches for it.
  ghost predicate Warranted(p: PersistedState, rungs: seq<Release>, input: TickInput) {
    && input.heartbeat.Some? && ToLibState(p, rungs).Some?
    && Swaps(Expected(p, rungs, ToLibState(p, rungs).value, input))
  }

  // The tick after its resume block: the file is the sum of its saves or as it was, a journal
  // begun is the next rung's and warranted, an outcome is what the host did and the input asks for,
  // and what is handed back is the saved state, or that state with the journal a failed save kept
  // off the disk.
  ghost predicate Stepped(p: PersistedState, f0: PersistedState, rungs: seq<Release>, input: TickInput,
                          end: TickEnd, story: Story, f: PersistedState, healed: bool)
  {
    var control := ControlOf(input);
    var q := Written(p, rungs, story, control);
    && f == (if Moved(story) then q else f0)
    && (story.began.Some? ==> story.began == NextRung(rungs, p.currentVersion) && Warranted(p, rungs, input))
    && (story.settled.Some? ==>
          && ToLibState(p, rungs).Some?
          && Concluded(p, rungs, ToLibState(p, rungs).value, story.settled.value, story.began.Some?, input))
    && (story.marked ==> Honored(p, control) != p)
    && (end.Escaped? <==> story.cause.Some?) && CauseOk(p, control, story, healed)
    && (end.Returned? ==>
          end.state == q || (Unwritten(p, rungs, story, end.state) && Warranted(p, rungs, input)))
  }

  // The journal whose save threw, in memory only.
  predicate Unwritten(p: PersistedState, rungs: seq<Release>, story: Story, m: PersistedState) {
    && !Moved(story) && NextRung(rungs, p.currentVersion).Some?
    && m == p.(attempting := NextRung(rungs, p.currentVersion))
  }

  // What can be counted on from the effects of one box.
  datatype Outlook = Outlook(calm: bool, migrating: Luck, restarting: Luck, marking: Luck)

  ghost function OutlookOf(host: BoxHost): Outlook {
    Outlook(host.Calm(), host.LuckOf(Migrating), host.LuckOf(Restarting), host.LuckOf(MarksSave))
  }

  // When effects land, the tick gets somewhere: it settles the expected outcome, or, where every
  // migration throws, it journals the swap and is thrown out of it; and it returns, unless the
  // restart op is what throws.
  ghost predicate Progressed(k: Outlook, p: PersistedState, rungs: seq<Release>, input: TickInput, hasEnv: bool,
                             end: TickEnd, story: Story)
  {
    ToLibState(p, rungs).Some? && k.calm && input.heartbeat.Some? ==>
      var e := Expected(p, rungs, ToLibState(p, rungs).value, input);
      var control := ControlOf(input);
      && (!Swaps(e) || (hasEnv && k.migrating.Always?) ==>
            && story.settled.Some? && story.settled.value.outcome == e
            && (k.restarting.Always? && k.marking.Always? ==> end.Returned?)
            && (k.marking.Never? && Honored(p, control) != p && (k.restarting.Always? || !RestartDue(p, control)) ==>
                  story.cause == Some(MarksUnsaved)))
      && (Swaps(e) && hasEnv && k.migrating.Never? ==>
            && story.settled.None? && story.began == NextRung(rungs, p.currentVersion)
            && (k.restarting.Always? && k.marking.Always? ==> end.Returned?)
            && (k.restarting.Never? && RestartDue(p, control) ==> story.cause == Some(RestartFailed)))
  }

  ghost predicate Strains(p: PersistedState, canonical: seq<Release>, story: Story, w: string) {
    story.settled.Some? && Overflows(p, canonical, story.settled.value.outcome, w)
  }

  // Kept, of what the file now holds and of what the loop goes on with.
  ghost predicate TickKept(p: PersistedState, log0: Log, end: TickEnd, q: PersistedState, log: Log,
                           w: string, listed: bool, hit: bool)
  {
    Kept(p, log0, q, log, w, listed, hit) && (end.Returned? ==> Kept(p, log0, end.state, log, w, listed, hit))
  }

  lemma HoldStepped(p: PersistedState, f0: PersistedState, rungs: seq<Release>, input: TickInput,
                    end: TickEnd, story: Story, f: PersistedState, healed: bool)
    requires story == Quiet.(saved := story.saved, marked := story.saved, cause := story.cause)
    requires f == if story.saved then Honored(p, ControlOf(input)) else f0
    requires end.Returned? ==> end.state == Honored(p, ControlOf(input)) && (story.saved <==> end.state != p)
    requires story.saved ==> end.Returned?
    requires end.Escaped? <==> story.cause.Some?
    requires match story.cause
             case Some(RestartFailed) => RestartDue(p, ControlOf(input))
             case Some(MarksUnsaved) => Honored(p, ControlOf(input)) != p
             case Some(c) => c.BoothSilent?
             case None => true
    ensures Stepped(p, f0, rungs, input, end, story, f, healed)
  {
    hide Concluded, NextRung, ToLibState, Warranted;
  }

  lemma HoldKept(p: PersistedState, log: Log, end: TickEnd, story: Story, control: Option<Control>, q: PersistedState,
                 w: string, listed: bool)
    requires StateOk(p) && (q == p || q == Honored(p, control))
    requires end.Returned? ==> end.state == Honored(p, control)
    ensures TickKept(p, log, end, q, log, w, listed, false)
  {
    hide Kept, StateOk, Honored;
    KeptAtFirst(p, log, w, listed);
    HonoredIsMarks(p, p, control);
    MarksKeepKept(p, log, p, log, w, listed, false, Honored(p, control));
  }

  // A tick that threw: the catch block's state, with or without the marks.
  lemma ThrownStepped(p: PersistedState, f0: PersistedState, rungs: seq<Release>, input: TickInput,
                      seen: Option<Control>, journaled: bool, wrote: bool, f1: PersistedState, r: Signal, cause: Cause,
                      f: PersistedState, healed: bool)
    requires ToLibState(p, rungs).Some? && (journaled ==> NextRung(rungs, p.currentVersion).Some?)
             && (wrote ==> journaled) && (journaled ==> Warranted(p, rungs, input))
    requires seen == None || seen == ControlOf(input)
    requires f1 == if wrote then p.(attempting := NextRung(rungs, p.currentVersion)) else f0
    requires var m := Journaled(p, rungs, journaled);
             && f == (if r.Fine? && Honored(m, seen) != m then Honored(m, seen) else f1)
             && (r.Thrown? ==>
                   || (cause.RestartFailed? && RestartDue(m, seen))
                   || (cause.MarksUnsaved? && Honored(m, seen) != m))
    ensures Stepped(p, f0, rungs, input, EndOf(r, Honored(Journaled(p, rungs, journaled), seen)),
                    ThrownStory(p, rungs, seen, journaled, wrote, r, cause), f, healed)
  {
    hide Concluded, NextRung, ToLibState, Warranted;
    HonoredIsMarks(Journaled(p, rungs, journaled), p, seen);
  }

  // The state the catch block rebuilds in memory.
  function Journaled(p: PersistedState, rungs: seq<Release>, journaled: bool): PersistedState {
    if journaled then p.(attempting := NextRung(rungs, p.currentVersion)) else p
  }

  ghost function ThrownStory(p: PersistedState, rungs: seq<Release>, seen: Option<Control>, journaled: bool,
                             wrote: bool, r: Signal, cause: Cause): Story
  {
    var m := Journaled(p, rungs, journaled);
    var marked := r.Fine? && Honored(m, seen) != m;
    var began := if wrote || (journaled && marked) then NextRung(rungs, p.currentVersion) else None;
    Story(wrote || marked, None, None, began, None, marked, if r.Thrown? then Some(cause) else None)
  }

  lemma ThrownKept(p: PersistedState, log0: Log, log: Log, rungs: seq<Release>, seen: Option<Control>,
                   journaled: bool, r: Signal, q: PersistedState, w: string, listed: bool)
    requires Kept(p, log0, p, log, w, listed, false)
    requires journaled ==> Kept(p, log0, Journaled(p, rungs, journaled), log, w, listed, false)
    requires q == p || (journaled && q == Journaled(p, rungs, journaled))
             || q == Honored(Journaled(p, rungs, journaled), seen)
    ensures TickKept(p, log0, EndOf(r, Honored(Journaled(p, rungs, journaled), seen)), q, log, w, listed, false)
  {
    hide Kept, Honored;
    var m := Journaled(p, rungs, journaled);
    HonoredIsMarks(m, m, seen);
    MarksKeepKept(p, log0, m, log, w, listed, false, Honored(m, seen));
  }

  // ---- what each part of a tick leaves sound ----------------------------------------------

  lemma StateIsNoShape(d: Disk, f: PersistedState, bases: map<string, Baseline>, journal: Option<string>)
    ensures Guarded(d.(state := f), bases, journal) == Guarded(d, bases, journal)
    ensures StampSafe(d.(state := f), bases) == StampSafe(d, bases)
  {
  }

  // What the swap of v, or its absence, leaves of the guards.
  lemma SwapGuards(p: PersistedState, story: Story, d0: Disk, b0: map<string, Baseline>, d: Disk,
                   b: map<string, Baseline>, v: string, journaled: bool, wrote: bool, u: string)
    requires Swapped(d0, b0, d, b, v, journaled, wrote) && (wrote ==> journaled)
    requires story.began == (if wrote then Some(v) else story.began) && (story.began.Some? ==> story.began == Some(v))
    requires Guarded(d0, b0, Some(u)) && Undisturbed(p, story, u)
    ensures Guarded(d, b, Some(u))
  {
    hide Healable;
    if !wrote && journaled && u != v {
      assert u in b0 && u in b0 - {v} && u in b - {v} && b[u] == (b - {v})[u];
    }
  }

  // The same once the tick has ended over a state change only.
  lemma EndGuards(p: PersistedState, story: Story, end: TickEnd, d0: Disk, b0: map<string, Baseline>, d1: Disk,
                  b: map<string, Baseline>, v: string, journaled: bool, wrote: bool, d: Disk)
    requires Swapped(d0, b0, d1, b, v, journaled, wrote) && (wrote ==> journaled)
    requires story.began == (if wrote then Some(v) else story.began) && (story.began.Some? ==> story.began == Some(v))
    requires d == d1.(state := d.state)
    requires story.began.Some? ==> journaled
    requires end.Returned? ==>
               || end.state.attempting.None?
               || (journaled && end.state.attempting == Some(v))
               || (!wrote && story.began.None? && end.state.attempting == p.attempting)
    ensures Guards(p, d0, b0, end, story, d, b)
  {
    hide StampSafe, Healable;
    StateIsNoShape(d1, d.state, b, d1.snapshot.stamp);
    forall u | Guarded(d0, b0, Some(u)) && Undisturbed(p, story, u) ensures Guarded(d, b, Some(u)) {
      SwapGuards(p, story, d0, b0, d1, b, v, journaled, wrote, u);
      StateIsNoShape(d1, d.state, b, Some(u));
    }
    if journaled { StateIsNoShape(d1, d.state, b, Some(v)); }
    if end.Returned? && Guarded(d0, b0, p.attempting) && p.attempting.Some? && end.state.attempting == p.attempting {
      if !(journaled && end.state.attempting == Some(v)) { assert Undisturbed(p, story, p.attempting.value); }
    }
  }

  // And once an applied bundle was retired: nothing but the stamp's promise is left.
  lemma RetiredGuards(p: PersistedState, story: Story, end: TickEnd, d0: Disk, b0: map<string, Baseline>, d: Disk,
                      b: map<string, Baseline>)
    requires StampSafe(d, b) && Applies(story) && story.began.Some?
    requires end.Returned? ==> end.state.attempting.None?
    ensures Guards(p, d0, b0, end, story, d, b)
  {
    hide StampSafe, Healable;
  }

  // ---- the tick ---------------------------------------------------------------------------

  // The part of the tick that has a canonical order and a library state to work with.
  method StepTick(host: BoxHost, persisted: PersistedState, canonical: seq<Release>, s: LibState,
                  input: TickInput, healed: bool, ghost w: string)
    returns (end: TickEnd, ghost story: Story)
    requires StampSafe(host.disk, host.log.bases) && StateOk(persisted)
    requires Ladder(canonical) && ToLibState(persisted, canonical) == Some(s)
    modifies host
    ensures StampSafe(host.disk, host.log.bases)
    ensures story.healed.None? && story.synthesized.None? && story.saved == Moved(story)
    ensures story.cause != Some(BoothSilent) && story.cause != Some(HealUnsaved)
    ensures if Moved(story) then host.saves > old(host.saves) else host.saves == old(host.saves)
    ensures Stepped(persisted, old(host.disk).state, canonical, input, end, story, host.disk.state, healed)
    ensures TickKept(persisted, old(host.log), end, if Moved(story) then host.disk.state else persisted, host.log, w,
                     Lists(canonical, w), Strains(persisted, canonical, story, w))
    ensures Guards(persisted, old(host.disk), old(host.log).bases, end, story, host.disk, host.log.bases)
    ensures Untouched(story, host.disk)
    ensures Progressed(OutlookOf(host), persisted, canonical, input, old(host.disk).env.Some?, end, story)
  {
    hide IsBelow, Ladder, ToLibState, Guarded, StampSafe, Lists, Concluded, Stepped, Guards, TickKept, StateOk, Strains,
         Decided, Swapped, Kept, Expected, Untouched, Honored, RestartDue, NextRung;
    LibCurrent(persisted, canonical);
    ghost var log, d0, n0 := host.log, host.disk, host.saves;
    ghost var wrote;
    var r, o, bundle, journaled, control;
    StateIsKept(persisted);
    r, o, bundle, journaled, control, wrote := UpdaterTick(host, persisted, canonical, s, input);
    if r.Fine? {
      end, story := FinishTick(host, persisted, canonical, s, o, bundle, journaled, input, control, healed, d0, log, w);
    } else {
      end, story := CatchTick(host, persisted, canonical, s, r, journaled, control, input, healed, wrote, d0, log, w);
      NotStrained(persisted, canonical, story, w);
      NotTouched(story, host.disk);
    }
    StepProgress(host, persisted, canonical, s, input, d0.env.Some?, r, o, journaled, control, wrote, end, story);
  }

  lemma NotTouched(story: Story, d: Disk)
    requires story.settled.None?
    ensures Untouched(story, d)
  {
  }

  lemma StepProgress(host: BoxHost, p: PersistedState, canonical: seq<Release>, s: LibState, input: TickInput,
                     hasEnv: bool, r: Signal, o: Outcome, journaled: bool, control: Option<Control>, wrote: bool,
                     end: TickEnd, story: Story)
    requires ToLibState(p, canonical) == Some(s) && (wrote ==> journaled)
    requires input.heartbeat.Some? ==> AsExpected(host, p, canonical, s, input, hasEnv, r, o, wrote)
    requires r.Fine? || journaled ==> control == ControlOf(input)
    requires r.Fine? ==>
               && (host.Calm() ==> story.settled.Some? && story.settled.value.outcome == o)
               && (host.Calm() && host.OpLands() ==> end.Returned?)
               && (host.Calm() && MarkBalks(host, p, control, false) ==> story.cause == Some(MarksUnsaved))
    requires !r.Fine? ==>
               && story.settled.None?
               && (wrote ==> story.began == NextRung(canonical, p.currentVersion))
               && (r.Thrown? && host.OpLands() ==> end.Returned?)
               && (r.Thrown? && host.Balks(Restarting) && RestartDue(p, control) ==> story.cause == Some(RestartFailed))
    ensures Progressed(OutlookOf(host), p, canonical, input, hasEnv, end, story)
  {
    hide Expected, ToLibState, Honored, RestartDue, NextRung;
  }

  // The catch block (runtime.ts:543-566); a tick that died leaves the same file, without the op.
  method CatchTick(host: BoxHost, persisted: PersistedState, canonical: seq<Release>, s: LibState, r: Signal,
                   journaled: bool, seen: Option<Control>, ghost input: TickInput, ghost healed: bool,
                   ghost wrote: bool, ghost d0: Disk, ghost log0: Log, ghost w: string)
    returns (end: TickEnd, ghost story: Story)
    requires !r.Fine? && StateOk(persisted) && Ladder(canonical) && ToLibState(persisted, canonical) == Some(s)
    requires Decided(persisted, canonical, s, d0.state, log0, host.disk.state, host.log, journaled, wrote, input)
    requires Swapped(d0, log0.bases, host.disk, host.log.bases, RungAfter(canonical, s), journaled, wrote)
    requires seen == None || seen == ControlOf(input)
    modifies host`disk, host`clock, host`saves
    ensures StampSafe(host.disk, host.log.bases)
    ensures story.healed.None? && story.synthesized.None? && story.saved == Moved(story) && story.settled.None?
    ensures story.cause != Some(BoothSilent) && story.cause != Some(HealUnsaved)
    ensures host.saves == old(host.saves) + (if story.marked then 1 else 0) && (wrote ==> Moved(story))
    ensures Moved(story) ==> wrote || story.marked
    ensures Stepped(persisted, d0.state, canonical, input, end, story, host.disk.state, healed)
    ensures TickKept(persisted, log0, end, if Moved(story) then host.disk.state else persisted, host.log, w,
                     Lists(canonical, w), false)
    ensures Guards(persisted, d0, log0.bases, end, story, host.disk, host.log.bases)
    ensures wrote ==> story.began == NextRung(canonical, persisted.currentVersion)
    ensures r.Thrown? && host.OpLands() ==> end.Returned?
    ensures r.Thrown? && host.Balks(Restarting) && RestartDue(persisted, seen) ==> story.cause == Some(RestartFailed)
  {
    hide IsBelow, Ladder, ToLibState, Guarded, StampSafe, Lists, Concluded, Stepped, Guards, TickKept,
         StateOk, Honored, Kept, RestartDue, IsPoisoned, NextRung, Expected;
    LibCurrent(persisted, canonical);
    var state := if journaled then persisted.(attempting := Some(canonical[s.current].version)) else persisted;
    assert state == Journaled(persisted, canonical, journaled);
    ghost var d, cause := host.disk, RestartFailed;
    DecidedKeeps(persisted, canonical, s, d0.state, log0, d.state, host.log, journaled, wrote, w, Lists(canonical, w),
                 input);
    var r', next := r, state;
    ghost var heard := None;
    if r.Thrown? {
      r', next, cause := HonorRestartOp(host, state, seen, false);
      heard := seen;
    }
    NothingHonored(state);
    HonoredIsMarks(state, persisted, seen);
    story := ThrownStory(persisted, canonical, heard, journaled, wrote, r', cause);
    end := EndOf(r', next);
    ThrownStepped(persisted, d0.state, canonical, input, heard, journaled, wrote, d.state, r', cause,
                  host.disk.state, healed);
    ThrownKept(persisted, log0, host.log, canonical, heard, journaled, r',
               if Moved(story) then host.disk.state else persisted, w, Lists(canonical, w));
    EndGuards(persisted, story, end, d0, log0.bases, d, host.log.bases, RungAfter(canonical, s), journaled, wrote,
              host.disk);
    GuardsStamp(persisted, d0, log0.bases, end, story, host.disk, host.log.bases);
  }

  lemma GuardsStamp(p: PersistedState, d0: Disk, b0: map<string, Baseline>, end: TickEnd, story: Story,
                    d: Disk, b: map<string, Baseline>)
    requires Guards(p, d0, b0, end, story, d, b)
    ensures StampSafe(d, b)
  {
  }

  lemma NothingHonored(p: PersistedState)
    ensures Honored(p, None) == p
  {
  }

  lemma StateIsKept(p: PersistedState)
    requires StateOk(p)
    ensures KeptOk(p)
  {
  }

  // The journal a tick began, as its story tells it.
  function BeganIf(rungs: seq<Release>, current: string, journaled: bool): Option<string> {
    if journaled then NextRung(rungs, current) else None
  }

  // The end-of-tick save and what follows it.
  method FinishTick(host: BoxHost, persisted: PersistedState, canonical: seq<Release>, s: LibState, o: Outcome,
                    bundle: Option<Bundle>, journaled: bool, ghost input: TickInput, control: Option<Control>,
                    healed: bool, ghost d0: Disk, ghost log0: Log, ghost w: string)
    returns (end: TickEnd, ghost story: Story)
    requires StateOk(persisted) && Ladder(canonical) && ToLibState(persisted, canonical) == Some(s)
    requires Decided(persisted, canonical, s, d0.state, log0, host.disk.state, host.log, journaled, journaled, input)
    requires Swapped(d0, log0.bases, host.disk, host.log.bases, RungAfter(canonical, s), journaled, journaled)
    requires Concluded(persisted, canonical, s, Settlement(o, host.disk, bundle, host.log.bases), journaled, input)
    requires control == ControlOf(input)
    modifies host
    ensures StampSafe(host.disk, host.log.bases)
    ensures story.healed.None? && story.synthesized.None? && story.saved == Moved(story)
    ensures story.cause != Some(BoothSilent) && story.cause != Some(HealUnsaved)
    ensures host.saves >= old(host.saves) && (host.saves > old(host.saves) <==> story.settled.Some?)
    ensures Moved(story) <==> journaled || story.settled.Some?
    ensures Stepped(persisted, d0.state, canonical, input, end, story, host.disk.state, healed)
    ensures TickKept(persisted, log0, end, if Moved(story) then host.disk.state else persisted, host.log, w,
                     Lists(canonical, w), Strains(persisted, canonical, story, w))
    ensures Guards(persisted, d0, log0.bases, end, story, host.disk, host.log.bases)
    ensures Untouched(story, host.disk)
    ensures host.Calm() ==> story.settled.Some? && story.settled.value.outcome == o
    ensures host.Calm() && host.OpLands() ==> end.Returned?
    ensures host.Calm() && MarkBalks(host, persisted, control, false) ==> story.cause == Some(MarksUnsaved)
  {
    hide IsBelow, Ladder, ToLibState, Guarded, StampSafe, Lists, Concluded, Stepped, Guards, TickKept, StateOk, Honored,
         Kept, RestartDue, NextRung, Settled, Strains, RecordedVersions, Decided, Swapped, ControlOf, Untouched;
    ghost var d, log := host.disk, host.log;
    ghost var t := Settlement(o, d, bundle, log.bases);
    ghost var began := BeganIf(canonical, persisted.currentVersion, journaled);
    BeganTells(persisted, canonical, s, t, journaled, d0, log0, d, log, input);
    var r, next := SettleTick(host, persisted, canonical, s, o, journaled);
    if !r.Fine? {
      end := EndOf(r, next);
      story := Story(journaled, None, None, began, None, false, if r.Thrown? then Some(EndUnsaved) else None);
      UnsavedTells(persisted, canonical, s, input, d0, log0, d, log, end, story, journaled, healed, w);
      return;
    }
    StateIsNoShape(d, next, log.bases, None);
    SettledMarks(persisted, canonical, s, o, journaled);
    HonoredIsMarks(next, persisted, control);
    ghost var marked, cause;
    var bounced := healed || o.Applied? || o.RolledBack? || o.BusyRetry?;
    end, marked, cause := CloseTick(host, next, o, bundle, control, bounced);
    story := Story(true, None, None, began, Some(t), marked, cause);
    ClosedTells(persisted, canonical, s, input, d0, log0, d, log, host.disk, host.log, end, story, journaled, healed,
                w);
  }

  lemma BeganTells(p: PersistedState, canonical: seq<Release>, s: LibState, t: Settlement, journaled: bool,
                   d0: Disk, log0: Log, d: Disk, log: Log, input: TickInput)
    requires ToLibState(p, canonical) == Some(s) && Concluded(p, canonical, s, t, journaled, input)
    requires Decided(p, canonical, s, d0.state, log0, d.state, log, journaled, journaled, input)
    requires Swapped(d0, log0.bases, d, log.bases, RungAfter(canonical, s), journaled, journaled)
    ensures StampSafe(d, log.bases)
    ensures journaled <==> BeganIf(canonical, p.currentVersion, journaled).Some?
    ensures t.outcome.Applied? ==> journaled && t.disk.env.Some?
  {
    hide StampSafe, Guarded, HealedTo, IsPoisoned, Expected;
    LibCurrent(p, canonical);
  }

  // The end-of-tick save threw or died: the file holds the journal at most.
  lemma UnsavedTells(p: PersistedState, canonical: seq<Release>, s: LibState, input: TickInput, d0: Disk,
                     log0: Log, d: Disk, log: Log, end: TickEnd, story: Story, journaled: bool, healed: bool, w: string)
    requires StateOk(p) && Ladder(canonical) && ToLibState(p, canonical) == Some(s) && !end.Returned?
    requires Decided(p, canonical, s, d0.state, log0, d.state, log, journaled, journaled, input)
    requires Swapped(d0, log0.bases, d, log.bases, RungAfter(canonical, s), journaled, journaled)
    requires story == Story(journaled, None, None, BeganIf(canonical, p.currentVersion, journaled), None, false,
                            if end.Escaped? then Some(EndUnsaved) else None)
    ensures Moved(story) == journaled
    ensures Stepped(p, d0.state, canonical, input, end, story, d.state, healed)
    ensures TickKept(p, log0, end, if journaled then d.state else p, log, w, Lists(canonical, w),
                     Strains(p, canonical, story, w))
    ensures Guards(p, d0, log0.bases, end, story, d, log.bases) && StampSafe(d, log.bases) && Untouched(story, d)
  {
    hide IsBelow, Ladder, ToLibState, StampSafe, Lists, Stepped, Guards, TickKept, StateOk, Kept, NextRung,
         Decided, Swapped;
    DecidedFile(p, canonical, s, d0.state, log0, d.state, log, journaled, journaled, input);
    DecidedKeeps(p, canonical, s, d0.state, log0, d.state, log, journaled, journaled, w, Lists(canonical, w), input);
    UnsavedStepped(p, d0.state, canonical, input, end, story, d.state, healed);
    UnsavedKept(p, log0, log, end, canonical, journaled, d.state, w, Lists(canonical, w));
    EndGuards(p, story, end, d0, log0.bases, d, log.bases, RungAfter(canonical, s), journaled, journaled, d);
    GuardsStamp(p, d0, log0.bases, end, story, d, log.bases);
    NotStrained(p, canonical, story, w);
  }

  // The end-of-tick save landed, whatever followed.
  lemma ClosedTells(p: PersistedState, canonical: seq<Release>, s: LibState, input: TickInput, d0: Disk,
                    log0: Log, d: Disk, log: Log, d': Disk, log': Log, end: TickEnd, story: Story, journaled: bool,
                    healed: bool, w: string)
    requires StateOk(p) && Ladder(canonical) && ToLibState(p, canonical) == Some(s)
    requires Decided(p, canonical, s, d0.state, log0, d.state, log, journaled, journaled, input)
    requires Swapped(d0, log0.bases, d, log.bases, RungAfter(canonical, s), journaled, journaled)
    requires story.settled.Some? && story.began == BeganIf(canonical, p.currentVersion, journaled)
    requires Concluded(p, canonical, s, story.settled.value, journaled, input) && story.settled.value.disk == d
    requires var o := story.settled.value.outcome;
             var next := Settled(p, canonical, s, o, journaled);
             && log' == log.(recorded := log.recorded + RecordedVersions(canonical, o))
             && Closed(next, o, story.settled.value.bundle, ControlOf(input), healed, d, d', end, story)
    requires StampSafe(d', log'.bases)
    ensures Stepped(p, d0.state, canonical, input, end, story, d'.state, healed)
    ensures TickKept(p, log0, end, d'.state, log', w, Lists(canonical, w), Strains(p, canonical, story, w))
    ensures Guards(p, d0, log0.bases, end, story, d', log'.bases) && Untouched(story, d')
  {
    hide IsBelow, Ladder, ToLibState, StampSafe, Lists, Concluded, Stepped, Guards, TickKept, StateOk, Honored, Kept,
         RestartDue, NextRung, Settled, Strains, RecordedVersions, Decided, Swapped, Overflows, Fits, ControlOf;
    var o, bundle := story.settled.value.outcome, story.settled.value.bundle;
    var next := Settled(p, canonical, s, o, journaled);
    ConcludedFits(p, canonical, s, story.settled.value, journaled, input);
    DecidedFile(p, canonical, s, d0.state, log0, d.state, log, journaled, journaled, input);
    DecidedKeeps(p, canonical, s, d0.state, log0, d.state, log, journaled, journaled, w, Lists(canonical, w), input);
    KeptIsBarred(p, log0, p, log, w, Lists(canonical, w));
    SettleKeeps(p, canonical, s, log0, log, o, journaled, log', w);
    SettledJournal(p, canonical, s, o, journaled);
    HonoredIsMarks(next, next, ControlOf(input));
    ClosedStepped(p, d0.state, canonical, s, input, d, d', end, story, d'.state, healed, journaled);
    ClosedKept(p, log0, log', end, next, ControlOf(input), d'.state, w, Lists(canonical, w),
               Overflows(p, canonical, o, w));
    if o.Applied? && bundle.Some? {
      RetiredGuards(p, story, end, d0, log0.bases, d', log'.bases);
    } else {
      EndGuards(p, story, end, d0, log0.bases, d, log.bases, RungAfter(canonical, s), journaled, journaled, d');
    }
    IsStrained(p, canonical, story, w);
  }

  // What CloseTick promises about its end.
  predicate Closed(next: PersistedState, o: Outcome, bundle: Option<Bundle>, control: Option<Control>, healed: bool,
                   d: Disk, d': Disk, end: TickEnd, story: Story)
  {
    && (!(o.Applied? && bundle.Some?) ==> d' == d.(state := d'.state))
    && d'.state == (if story.marked then Honored(next, control) else next)
    && (story.marked ==> Honored(next, control) != next)
    && (end.Returned? ==> end.state == d'.state)
    && (end.Escaped? <==> story.cause.Some?)
    && match story.cause
       case Some(RestartFailed) => !story.marked && RestartDue(next, control)
                                   && !(healed || o.Applied? || o.RolledBack? || o.BusyRetry?)
       case Some(MarksUnsaved) => !story.marked && Honored(next, control) != next
       case Some(c) => c.AfterSave? && (story.marked <==> Honored(next, control) != next)
       case None => true
  }

  lemma ConcludedFits(p: PersistedState, canonical: seq<Release>, s: LibState, t: Settlement, journaled: bool,
                      input: TickInput)
    requires Concluded(p, canonical, s, t, journaled, input)
    ensures Fits(s, canonical, t.outcome, journaled) && (t.outcome.Applied? ==> journaled)
  {
    hide HealedTo, RunsPinned, Pinned, IsPoisoned, Expected;
  }

  lemma DecidedFile(p: PersistedState, canonical: seq<Release>, s: LibState, f0: PersistedState, log0: Log,
                    f: PersistedState, log: Log, journaled: bool, wrote: bool, input: TickInput)
    requires Decided(p, canonical, s, f0, log0, f, log, journaled, wrote, input) && ToLibState(p, canonical) == Some(s)
    ensures log == log0.(bases := log.bases, touched := log.touched)
    ensures f == if wrote then p.(attempting := Some(RungAfter(canonical, s))) else f0
    ensures journaled ==>
              NextRung(canonical, p.currentVersion) == Some(RungAfter(canonical, s)) && Warranted(p, canonical, input)
  {
    hide IsPoisoned, Expected;
    LibCurrent(p, canonical);
  }

  lemma KeptIsBarred(p: PersistedState, log0: Log, q: PersistedState, log: Log, w: string, listed: bool)
    requires Kept(p, log0, q, log, w, listed, false)
    ensures Barred(p, log0.touched, log.touched, w)
  {
  }

  lemma NotStrained(p: PersistedState, canonical: seq<Release>, story: Story, w: string)
    requires story.settled.None?
    ensures !Strains(p, canonical, story, w)
  {
  }

  lemma IsStrained(p: PersistedState, canonical: seq<Release>, story: Story, w: string)
    requires story.settled.Some?
    ensures Strains(p, canonical, story, w) == Overflows(p, canonical, story.settled.value.outcome, w)
  {
  }

  lemma UnsavedStepped(p: PersistedState, f0: PersistedState, rungs: seq<Release>, input: TickInput,
                       end: TickEnd, story: Story, f: PersistedState, healed: bool)
    requires !end.Returned? && ToLibState(p, rungs).Some?
    requires story == Quiet.(saved := story.began.Some?, began := story.began, cause := story.cause)
    requires story.began.Some? ==> story.began == NextRung(rungs, p.currentVersion) && Warranted(p, rungs, input)
    requires story.cause == (if end.Escaped? then Some(EndUnsaved) else None)
    requires f == if story.began.Some? then p.(attempting := story.began) else f0
    ensures Stepped(p, f0, rungs, input, end, story, f, healed)
  {
    hide ToLibState, NextRung, Warranted;
  }

  lemma UnsavedKept(p: PersistedState, log0: Log, log: Log, end: TickEnd, rungs: seq<Release>, journaled: bool,
                    f: PersistedState, w: string, listed: bool)
    requires !end.Returned? && Kept(p, log0, p, log, w, listed, false)
    requires journaled ==> Kept(p, log0, f, log, w, listed, false)
    ensures TickKept(p, log0, end, if journaled then f else p, log, w, listed, false)
  {
    hide Kept;
  }

  lemma ClosedStepped(p: PersistedState, f0: PersistedState, rungs: seq<Release>, s: LibState, input: TickInput,
                      d: Disk, d': Disk, end: TickEnd, story: Story, f: PersistedState, healed: bool, journaled: bool)
    requires ToLibState(p, rungs) == Some(s) && (journaled ==> NextRung(rungs, p.currentVersion).Some?)
    requires story.settled.Some? && story.began == BeganIf(rungs, p.currentVersion, journaled)
    requires Concluded(p, rungs, s, story.settled.value, journaled, input)
    requires journaled ==> Warranted(p, rungs, input)
    requires f == d'.state
    requires Closed(Settled(p, rungs, s, story.settled.value.outcome, journaled), story.settled.value.outcome,
                    story.settled.value.bundle, ControlOf(input), healed, d, d', end, story)
    ensures Stepped(p, f0, rungs, input, end, story, f, healed)
  {
    hide ToLibState, NextRung, Reachable, IsPoisoned, HealedTo, RunsPinned, Pinned, FromLibState, NextLib, Expected,
         Warranted;
    var next := Settled(p, rungs, s, story.settled.value.outcome, journaled);
    SettledMarks(p, rungs, s, story.settled.value.outcome, journaled);
    HonoredIsMarks(next, p, ControlOf(input));
  }

  lemma SettledMarks(p: PersistedState, rungs: seq<Release>, s: LibState, o: Outcome, journaled: bool)
    ensures var q := Settled(p, rungs, s, o, journaled);
            q.boxId == p.boxId && q.honoredRestart == p.honoredRestart
  {
  }

  lemma ClosedKept(p: PersistedState, log0: Log, log: Log, end: TickEnd, next: PersistedState, control: Option<Control>,
                   f: PersistedState, w: string, listed: bool, hit: bool)
    requires Kept(p, log0, next, log, w, listed, hit)
    requires f == next || f == Honored(next, control)
    requires end.Returned? ==> end.state == f
    ensures TickKept(p, log0, end, f, log, w, listed, hit)
  {
    hide Kept, Honored;
    HonoredIsMarks(next, next, control);
    MarksKeepKept(p, log0, next, log, w, listed, hit, Honored(next, control));
  }

  // ---- the vanished current version (runtime.ts:212-241) -----------------------------------

  predicate IsHex(c: char) { '0' <= c <= '9' || 'a' <= c <= 'f' }

  predicate IsDigest(s: string) {
    |s| == 71 && s[..7] == "sha256:" && forall i | 7 <= i < 71 :: IsHex(s[i])
  }

  // The part after the first '@', when it is a digest.
  function PinnedDigest(pin: string): Option<string> {
    if pin == [] then None
    else if pin[0] == '@' then (if IsDigest(pin[1..]) then Some(pin[1..]) else None)
    else PinnedDigest(pin[1..])
  }

  function AppPinDigest(d: Disk): Option<string> {
    if d.env.Some? && APP_PIN in d.env.value then PinnedDigest(d.env.value[APP_PIN]) else None
  }

  // The release list a tick steps on: the feed's, with the running version put back if need be.
  function Rungs(canonical: seq<Release>, current: string, synthesized: Option<string>): seq<Release> {
    match synthesized case None => canonical case Some(digest) => EnsureCurrent(canonical, current, digest)
  }

  ghost predicate Placeable(canonical: seq<Release>, current: string) {
    && Ladder(canonical) && Parse(current).Some?
    && forall e :: e in canonical ==> e.version == current || SemverOf(e.version) != SemverOf(current)
  }

  lemma RungsAreLadder(canonical: seq<Release>, current: string, synthesized: Option<string>)
    requires Placeable(canonical, current)
    ensures var rungs := Rungs(canonical, current, synthesized);
            && Ladder(rungs)
            && (forall e :: e in canonical ==> e in rungs)
            && (forall e :: e in rungs ==> e in canonical || e.version == current)
  {
    hide Parse, Ladder, SemverOf;
    if synthesized.Some? {
      var digest := synthesized.value;
      EnsureCurrentKeepsLadder(canonical, current, digest);
      var all := canonical + [Release(current, digest, "", false)];
      var rungs := EnsureCurrent(canonical, current, digest);
      if OrdinalOf(canonical, current).None? {
        forall e ensures e in rungs <==> e in all { assert e in multiset(rungs) <==> e in multiset(all); }
      }
    }
  }

  // The digest a tick takes from the app pin: only without a journal, for a version the list lacks.
  function Vanished(p: PersistedState, canonical: seq<Release>, d: Disk): Option<string> {
    if p.attempting.None? && OrdinalOf(canonical, p.currentVersion).None? then AppPinDigest(d) else None
  }

  // A synthesized entry carries whatever digest the app pin holds, and takes the current rung.
  method HealVanishedCurrent(host: BoxHost, persisted: PersistedState, canonical: seq<Release>)
    returns (r: Signal, rungs: seq<Release>, ghost synthesized: Option<string>)
    requires Placeable(canonical, persisted.currentVersion)
    modifies host`clock
    ensures r.Fine? || r.Died?
    ensures Ladder(rungs) && rungs == Rungs(canonical, persisted.currentVersion, synthesized)
    ensures (forall e :: e in canonical ==> e in rungs)
         && forall e :: e in rungs ==> e in canonical || e.version == persisted.currentVersion
    ensures synthesized.Some? ==>
              && persisted.attempting.None? && OrdinalOf(canonical, persisted.currentVersion).None?
              && AppPinDigest(host.disk) == synthesized
              && OrdinalOf(rungs, persisted.currentVersion).Some?
              && rungs[OrdinalOf(rungs, persisted.currentVersion).value - 1].imageDigest == synthesized.value
    ensures host.Calm() ==> r.Fine? && synthesized == Vanished(persisted, canonical, host.disk)
  {
    hide Parse, Ladder, SemverOf, PinnedDigest, IsDigest, Sort;
    r, rungs, synthesized := Fine, canonical, None;
    RungsAreLadder(canonical, persisted.currentVersion, None);
    if persisted.attempting.Some? || OrdinalOf(canonical, persisted.currentVersion).Some? { return; }
    r := host.External(Reading);
    if r.Died? { return; }
    if r.Thrown? { r := Fine; return; }
    if host.disk.env.Some? && APP_PIN in host.disk.env.value {
      var digest := PinnedDigest(host.disk.env.value[APP_PIN]);
      if digest.Some? {
        RungsAreLadder(canonical, persisted.currentVersion, digest);
        EnsureCurrentKeepsLadder(canonical, persisted.currentVersion, digest.value);
        rungs, synthesized := EnsureCurrent(canonical, persisted.currentVersion, digest.value), digest;
        SynthesizedDigest(canonical, persisted.currentVersion, digest.value);
      }
    }
  }

  lemma SynthesizedDigest(canonical: seq<Release>, current: string, digest: string)
    requires Placeable(canonical, current) && OrdinalOf(canonical, current).None?
    ensures var rungs := EnsureCurrent(canonical, current, digest);
            && OrdinalOf(rungs, current).Some?
            && rungs[OrdinalOf(rungs, current).value - 1] == Release(current, digest, "", false)
  {
    hide Parse, Ladder, SemverOf, Sort, OrdinalOf;
    EnsureCurrentKeepsLadder(canonical, current, digest);
    var all := canonical + [Release(current, digest, "", false)];
    var rungs := EnsureCurrent(canonical, current, digest);
    var e := rungs[OrdinalOf(rungs, current).value - 1];
    assert e in multiset(rungs) && multiset(rungs) == multiset(all);
    assert e in all;
  }

  // ---- runTick ----------------------------------------------------------------------------

  // The memory the rest of the tick works with.
  function Resumed(p: PersistedState, story: Story): PersistedState {
    if story.healed.Some? && p.attempting.Some? then Counted(p, p.attempting.value) else p
  }

  predicate HealDue(p: PersistedState, canonical: seq<Release>) {
    p.attempting.Some? && OrdinalOf(canonical, p.currentVersion).Some?
  }

  // A heal, when one is due and can run; otherwise the journal stands and the tick goes on.
  method Resume(host: BoxHost, persisted: PersistedState, canonical: seq<Release>)
    returns (r: Signal, next: PersistedState, done: bool, ghost healed: Option<Healing>)
    requires StampSafe(host.disk, host.log.bases)
    modifies host
    ensures StampSafe(host.disk, host.log.bases) && done == healed.Some?
    ensures old(Guarded(host.disk, host.log.bases, persisted.attempting)) ==>
              Guarded(host.disk, host.log.bases, persisted.attempting)
    ensures healed.Some? ==>
              && r.Fine? && persisted.attempting.Some? && OrdinalOf(canonical, persisted.currentVersion).Some?
              && healed.value.current == canonical[OrdinalOf(canonical, persisted.currentVersion).value - 1]
              && RunsPinned(healed.value.disk, healed.value.current.imageDigest)
              && next == Counted(persisted, persisted.attempting.value)
              && host.log == old(host.log).(recorded := old(host.log).recorded + [persisted.attempting.value])
    ensures healed.Some? && old(Guarded(host.disk, host.log.bases, persisted.attempting)) ==>
              HealWasExact(persisted, old(host.log).bases, healed.value)
    ensures healed.Some? ==> host.disk.env.Some?
    ensures healed.None? ==> next == persisted && host.log == old(host.log)
    ensures host.disk.state == if healed.Some? then next else old(host.disk).state
    ensures host.saves == old(host.saves) + (if healed.Some? then 1 else 0)
    ensures persisted.attempting.None? || OrdinalOf(canonical, persisted.currentVersion).None? ==>
              r.Fine? && host.disk == old(host.disk)
    ensures host.Calm() ==> r.Fine?
    ensures host.Calm() && HealDue(persisted, canonical) && old(host.disk).env.Some? ==> healed.Some?
  {
    hide Healable, StampSafe, HealedTo, Guarded;
    r, next, done, healed := Fine, persisted, false, None;
    if persisted.attempting.None? { return; }
    var cur := OrdinalOf(canonical, persisted.currentVersion);
    if cur.None? { return; }
    ghost var guarded := Guarded(host.disk, host.log.bases, persisted.attempting);
    r, done, next := ResumeJournal(host, persisted, persisted.attempting.value, canonical[cur.value - 1]);
    if done {
      healed := Some(Healing(host.disk, canonical[cur.value - 1]));
      if guarded { GuardedHasBase(host.disk, host.log.bases, persisted.attempting.value); }
    }
  }

  lemma GuardedHasBase(d: Disk, bases: map<string, Baseline>, v: string)
    requires Guarded(d, bases, Some(v))
    ensures v in bases
  {
  }

  // The heal put back the baseline of the journaled series, with the app on the digest the
  // release list gives the current version; the tree is exactly the old one if, and once every
  // bundle of the series was laid to its end only if, none brought an entry of its own.
  ghost predicate HealWasExact(p: PersistedState, bases: map<string, Baseline>, h: Healing) {
    && p.attempting.Some? && p.attempting.value in bases
    && HealedTo(h.disk, bases[p.attempting.value], h.current.imageDigest)
  }

  // What a whole tick tells, memory `p` and the box `d0` before it, the file `f` after it.
  ghost predicate Told(p: PersistedState, d0: Disk, canonical: seq<Release>, input: TickInput,
                       end: TickEnd, story: Story, f: PersistedState)
  {
    var p1 := Resumed(p, story);
    && story.saved == (story.healed.Some? || Moved(story))
    && (story.healed.Some? ==>
          && p.attempting.Some? && OrdinalOf(canonical, p.currentVersion).Some?
          && story.healed.value.current == canonical[OrdinalOf(canonical, p.currentVersion).value - 1]
          && RunsPinned(story.healed.value.disk, story.healed.value.current.imageDigest))
    && (story.synthesized.Some? ==>
          && p.attempting.None? && OrdinalOf(canonical, p.currentVersion).None?
          && AppPinDigest(d0) == story.synthesized)
    && (story.cause == Some(BoothSilent) || story.cause == Some(HealUnsaved) ==> !story.saved)
    && Stepped(p1, if story.healed.Some? then p1 else d0.state, Rungs(canonical, p.currentVersion, story.synthesized),
               input, end, story, f, story.healed.Some?)
  }

  // When effects land and the list came, a whole tick gets somewhere: a due journal is healed and
  // counted, a vanished current version takes the pin's digest, and the rest is as Progressed says.
  ghost predicate TickProgressed(k: Outlook, p: PersistedState, d0: Disk, canonical: seq<Release>, input: TickInput,
                                 end: TickEnd, story: Story)
  {
    k.calm && input.heartbeat.Some? ==>
      && (HealDue(p, canonical) && d0.env.Some? ==> story.healed.Some?)
      && story.synthesized == Vanished(p, canonical, d0)
      && Progressed(k, Resumed(p, story), Rungs(canonical, p.currentVersion, story.synthesized), input, d0.env.Some?,
                    end, story)
      && (d0.env.Some? && k.migrating.Always? && k.restarting.Always? && k.marking.Always? ==> end.Returned?)
  }

  // The feed assumption: no two steppable versions tie, the running one included.
  ghost predicate FeedOk(input: TickInput, current: string) {
    input.releases.Some? ==>
      && Untied(SteppableOf(input.releases.value, current))
      && forall r :: r in SteppableOf(input.releases.value, current) ==>
           r.version == current || SemverOf(r.version) != SemverOf(current)
  }

  // The list one tick works on, empty while there is none.
  function Feed(input: TickInput, current: string): seq<Release> {
    if input.releases.Some? && Canonical(input.releases.value, current).Some?
    then Canonical(input.releases.value, current).value else []
  }

  // A list that came lists the version the latch theorem follows.
  ghost predicate Listed(input: TickInput, current: string, w: string) {
    input.releases.Some? ==> Lists(Feed(input, current), w)
  }

  // The tick that takes w past its latch.
  ghost predicate Hit(p: PersistedState, canonical: seq<Release>, story: Story, w: string) {
    story.healed.None? && Strains(p, canonical, story, w)
  }

  function Latest(p: PersistedState, story: Story, f: PersistedState): PersistedState {
    if story.saved then f else p
  }

  // runTick (runtime.ts:116-647), from whatever memory the loop holds.
  method RunTick(host: BoxHost, persisted: PersistedState, input: TickInput, ghost w: string)
    returns (end: TickEnd, ghost story: Story)
    requires StampSafe(host.disk, host.log.bases) && StateOk(persisted) && FeedOk(input, persisted.currentVersion)
    modifies host
    ensures StampSafe(host.disk, host.log.bases)
    ensures host.saves >= old(host.saves) && story.saved == (host.saves > old(host.saves))
    ensures Told(persisted, old(host.disk), Feed(input, persisted.currentVersion), input, end, story,
                 host.disk.state)
    ensures TickKept(persisted, old(host.log), end, Latest(persisted, story, host.disk.state), host.log, w,
                     Listed(input, persisted.currentVersion, w),
                     Hit(persisted, Feed(input, persisted.currentVersion), story, w))
    ensures Guards(persisted, old(host.disk), old(host.log).bases, end, story, host.disk, host.log.bases)
    ensures story.healed.Some? && old(Guarded(host.disk, host.log.bases, persisted.attempting)) ==>
              HealWasExact(persisted, old(host.log).bases, story.healed.value)
    ensures Untouched(story, host.disk)
    ensures input.releases.Some? ==>
              TickProgressed(OutlookOf(host), persisted, old(host.disk), Feed(input, persisted.currentVersion), input,
                             end, story)
    ensures host.Calm() && host.OpLands() && input.heartbeat.Some? && input.releases.None? ==> end.Returned?
  {
    hide IsBelow, Ladder, ToLibState, StampSafe, Kept, TickKept, StateOk, Told, Guards, Guarded, Untouched,
         TickProgressed, Honored, RestartDue, Steppable, SteppableOf, SemverOf, Untied, Lists, Hit, Parse, HealWasExact;
    var r := host.External(Listing);
    ghost var canonical := Feed(input, persisted.currentVersion);
    StateParses(persisted);
    if r.Died? || r.Thrown? || input.releases.None? {
      if r.Died? {
        end, story := Dead, Quiet;
      } else {
        end, story := HoldTick(host, persisted, input);
      }
      HoldTells(host.disk, persisted, old(host.disk), canonical, input, end, story, host.log, w,
                Listed(input, persisted.currentVersion, w));
      if input.releases.Some? {
        HealFailed(OutlookOf(host), persisted, old(host.disk), canonical, input, end, story);
      }
      return;
    }
    var listing := CanonicalOrder(input.releases.value, persisted.currentVersion);
    ListingFacts(input, persisted.currentVersion);
    end, story := ListedTick(host, persisted, listing.value, input, w);
  }

  lemma StateParses(p: PersistedState)
    requires StateOk(p)
    ensures Parse(p.currentVersion).Some?
  {
  }

  lemma ListingFacts(input: TickInput, current: string)
    requires input.releases.Some? && Parse(current).Some? && FeedOk(input, current)
    ensures Canonical(input.releases.value, current).Some?
    ensures Placeable(Feed(input, current), current)
  {
    hide Ladder, Steppable, SemverOf, Untied, Parse, Sort;
    CanonicalIsLadder(input.releases.value, current);
  }

  // A tick that only held.
  lemma HoldTells(d: Disk, p: PersistedState, d0: Disk, canonical: seq<Release>, input: TickInput, end: TickEnd,
                  story: Story, log: Log, w: string, listed: bool)
    requires StateOk(p) && StampSafe(d0, log.bases) && d == d0.(state := d.state)
    requires story == Quiet.(saved := story.saved, marked := story.saved, cause := story.cause)
    requires d.state == if story.saved then Honored(p, ControlOf(input)) else d0.state
    requires end.Returned? ==> end.state == Honored(p, ControlOf(input)) && (story.saved <==> end.state != p)
    requires story.saved ==> end.Returned?
    requires end.Escaped? <==> story.cause.Some?
    requires match story.cause
             case Some(RestartFailed) => RestartDue(p, ControlOf(input))
             case Some(MarksUnsaved) => Honored(p, ControlOf(input)) != p
             case Some(c) => c.BoothSilent?
             case None => true
    ensures Told(p, d0, canonical, input, end, story, d.state)
    ensures TickKept(p, log, end, Latest(p, story, d.state), log, w, listed, Hit(p, canonical, story, w))
    ensures Guards(p, d0, log.bases, end, story, d, log.bases) && StampSafe(d, log.bases) && Untouched(story, d)
  {
    hide Stepped, TickKept, StateOk, StampSafe, Guards, Untouched, RestartDue, Honored, Strains;
    HoldSteps(p, d0, d, canonical, input, end, story, log, w, listed, false);
  }

  // The tick once the release list has a canonical order.
  method ListedTick(host: BoxHost, persisted: PersistedState, canonical: seq<Release>, input: TickInput,
                    ghost w: string)
    returns (end: TickEnd, ghost story: Story)
    requires StampSafe(host.disk, host.log.bases) && StateOk(persisted)
    requires Placeable(canonical, persisted.currentVersion)
    modifies host
    ensures StampSafe(host.disk, host.log.bases)
    ensures host.saves >= old(host.saves) && story.saved == (host.saves > old(host.saves))
    ensures Told(persisted, old(host.disk), canonical, input, end, story, host.disk.state)
    ensures TickKept(persisted, old(host.log), end, Latest(persisted, story, host.disk.state), host.log, w,
                     Lists(canonical, w), Hit(persisted, canonical, story, w))
    ensures Guards(persisted, old(host.disk), old(host.log).bases, end, story, host.disk, host.log.bases)
    ensures story.healed.Some? && old(Guarded(host.disk, host.log.bases, persisted.attempting)) ==>
              HealWasExact(persisted, old(host.log).bases, story.healed.value)
    ensures Untouched(story, host.disk)
    ensures TickProgressed(OutlookOf(host), persisted, old(host.disk), canonical, input, end, story)
  {
    hide IsBelow, Ladder, ToLibState, StampSafe, Guarded, Kept, TickKept, StateOk, Told, Guards, Stepped, Untouched,
         Lists, Hit, Strains, Parse, HealWasExact, Placeable, RunsPinned, Proceeded, TickProgressed, OrdinalOf;
    ghost var log0, d0 := host.log, host.disk;
    var r, state, done;
    ghost var healed;
    r, state, done, healed := Resume(host, persisted, canonical);
    ghost var d1, log1, n1 := host.disk, host.log, host.saves;
    ResumeKept(persisted, log0, healed, state, log1, w, Lists(canonical, w));
    if !r.Fine? {
      end := EndOf(r, state);
      story := Quiet.(cause := if r.Thrown? then Some(HealUnsaved) else None);
      UnhealedTells(persisted, d0, canonical, input, end, story, d1, log0, w, Lists(canonical, w));
      HealFailed(OutlookOf(host), persisted, d0, canonical, input, end, story);
      return;
    }
    ghost var told;
    end, told := ProceedTick(host, state, canonical, input, done, w);
    story := told.(healed := healed, saved := healed.Some? || told.saved);
    TellsAll(persisted, d0, canonical, input, end, story, told, state, d1, host.disk.state);
    KeptAll(persisted, log0, state, log1, end, story, told, host.disk.state, host.log, canonical,
            Rungs(canonical, state.currentVersion, told.synthesized), w);
    GuardsAll(persisted, d0, log0.bases, state, d1, end, story, told, host.disk, host.log.bases);
    ProgressAll(OutlookOf(host), persisted, d0, state, d1, canonical, input, end, story, told);
    SameUntouched(told, story, host.disk);
  }

  lemma SameUntouched(a: Story, b: Story, d: Disk)
    requires a.settled == b.settled
    ensures Untouched(a, d) == Untouched(b, d)
  {
  }

  lemma HealFailed(k: Outlook, p: PersistedState, d0: Disk, canonical: seq<Release>, input: TickInput, end: TickEnd,
                   story: Story)
    requires !k.calm
    ensures TickProgressed(k, p, d0, canonical, input, end, story)
  {
  }

  // Guards carried through a resume block that heals, fails to, or has nothing to do.
  lemma GuardsAll(p: PersistedState, d0: Disk, b: map<string, Baseline>, p1: PersistedState, d1: Disk, end: TickEnd,
                  story: Story, told: Story, d: Disk, b': map<string, Baseline>)
    requires story == told.(healed := story.healed, saved := story.saved)
    requires p1.attempting == p.attempting || p1.attempting.None?
    requires p.attempting.None? ==> d1 == d0
    requires Guarded(d0, b, p.attempting) ==> Guarded(d1, b, p.attempting)
    requires Guards(p1, d1, b, end, told, d, b')
    ensures Guards(p, d0, b, end, story, d, b')
  {
    hide StampSafe, Healable;
    forall u | Guarded(d0, b, Some(u)) && Undisturbed(p, story, u) ensures Guarded(d, b', Some(u)) {
      assert Undisturbed(p1, told, u) && Guarded(d1, b, Some(u));
    }
  }

  lemma ProgressAll(k: Outlook, p: PersistedState, d0: Disk, p1: PersistedState, d1: Disk, canonical: seq<Release>,
                    input: TickInput, end: TickEnd, story: Story, told: Story)
    requires story == told.(healed := story.healed, saved := story.saved)
    requires p1 == Resumed(p, story) && p1.currentVersion == p.currentVersion
    requires story.healed.Some? ==>
               && p.attempting.Some? && OrdinalOf(canonical, p.currentVersion).Some?
               && d1.env.Some?
    requires p.attempting.None? || OrdinalOf(canonical, p.currentVersion).None? ==> d1 == d0
    requires k.calm && HealDue(p, canonical) && d0.env.Some? ==> story.healed.Some?
    requires Proceeded(k, p1, d1, canonical, input, end, told)
    ensures TickProgressed(k, p, d0, canonical, input, end, story)
  {
    hide OrdinalOf, AppPinDigest, Expected, ToLibState, Honored, RestartDue, NextRung;
    if k.calm && input.heartbeat.Some? {
      assert story.synthesized == Vanished(p, canonical, d0);
      var rungs := Rungs(canonical, p.currentVersion, story.synthesized);
      SameProgress(k, p1, rungs, input, d1.env.Some?, end, told, story);
      LessProgress(k, p1, rungs, input, d1.env.Some?, d0.env.Some?, end, story);
    }
  }

  lemma LessProgress(k: Outlook, p: PersistedState, rungs: seq<Release>, input: TickInput, hasEnv: bool, hasEnv': bool,
                     end: TickEnd, story: Story)
    requires Progressed(k, p, rungs, input, hasEnv, end, story) && (hasEnv' ==> hasEnv)
    ensures Progressed(k, p, rungs, input, hasEnv', end, story)
  {
    hide Expected, ToLibState, Honored, RestartDue, NextRung;
  }

  lemma SameProgress(k: Outlook, p: PersistedState, rungs: seq<Release>, input: TickInput, hasEnv: bool, end: TickEnd,
                     a: Story, b: Story)
    requires a.settled == b.settled && a.began == b.began && a.cause == b.cause
    requires Progressed(k, p, rungs, input, hasEnv, end, a)
    ensures Progressed(k, p, rungs, input, hasEnv, end, b)
  {
    hide Expected, ToLibState, Honored, RestartDue, NextRung;
  }

  // What the resume block leaves to the rest of the tick.
  lemma ResumeKept(p: PersistedState, log0: Log, healed: Option<Healing>, state: PersistedState, log1: Log, w: string,
                   listed: bool)
    requires StateOk(p)
    requires healed.None? ==> state == p && log1 == log0
    requires healed.Some? ==> p.attempting.Some? && state == Counted(p, p.attempting.value)
                              && log1 == log0.(recorded := log0.recorded + [p.attempting.value])
    ensures Kept(p, log0, state, log1, w, listed, false) && StateOk(state)
    ensures state.currentVersion == p.currentVersion && Load(state, w) == Load(p, w)
    ensures Get(state.attempts, w) >= Get(p.attempts, w)
  {
    hide IsBelow, AtLeast, Parse, Tallied, Load, LatchStep, Barred;
    KeptAtFirst(p, log0, w, listed);
    if healed.Some? {
      HealKeeps(p, log0, p.attempting.value, w, listed);
      CountedKeeps(p, log0.recorded, p.attempting.value, w);
    }
  }

  // A heal went through but for its save, or the tick died healing.
  lemma UnhealedTells(p: PersistedState, d0: Disk, canonical: seq<Release>, input: TickInput, end: TickEnd,
                      story: Story, d1: Disk, log: Log, w: string, listed: bool)
    requires StateOk(p) && !end.Returned? && d1.state == d0.state && StampSafe(d1, log.bases)
    requires p.attempting.None? ==> d1 == d0
    requires Guarded(d0, log.bases, p.attempting) ==> Guarded(d1, log.bases, p.attempting)
    requires story == Quiet.(cause := if end.Escaped? then Some(HealUnsaved) else None)
    ensures Told(p, d0, canonical, input, end, story, d1.state)
    ensures TickKept(p, log, end, Latest(p, story, d1.state), log, w, listed, Hit(p, canonical, story, w))
    ensures Guards(p, d0, log.bases, end, story, d1, log.bases) && Untouched(story, d1)
  {
    hide StateOk, Kept, StampSafe, Healable;
    KeptAtFirst(p, log, w, listed);
  }

  lemma TellsAll(p: PersistedState, d0: Disk, canonical: seq<Release>, input: TickInput, end: TickEnd,
                 story: Story, told: Story, p1: PersistedState, d1: Disk, f: PersistedState)
    requires told.healed.None? && told.saved == Moved(told)
    requires story == told.(healed := story.healed, saved := story.healed.Some? || told.saved)
    requires story.healed.None? ==> p1 == p
    requires story.healed.Some? ==>
               && p.attempting.Some? && OrdinalOf(canonical, p.currentVersion).Some?
               && story.healed.value.current == canonical[OrdinalOf(canonical, p.currentVersion).value - 1]
               && RunsPinned(story.healed.value.disk, story.healed.value.current.imageDigest)
               && p1 == Counted(p, p.attempting.value)
    requires d1.state == if story.healed.Some? then p1 else d0.state
    requires story.healed.None? && p.attempting.None? ==> d1 == d0
    requires told.synthesized.Some? ==>
               && p1.attempting.None? && OrdinalOf(canonical, p.currentVersion).None?
               && AppPinDigest(d1) == told.synthesized
    requires told.cause == Some(BoothSilent) ==> story.healed.None? && !told.saved
    requires told.cause != Some(HealUnsaved)
    requires Stepped(p1, d1.state, Rungs(canonical, p.currentVersion, told.synthesized), input, end, told, f,
                     story.healed.Some?)
    ensures Told(p, d0, canonical, input, end, story, f)
  {
    hide RunsPinned, Stepped, Rungs, AppPinDigest;
    var rungs := Rungs(canonical, p.currentVersion, told.synthesized);
    SameSteps(p1, d1.state, rungs, input, end, told, story, f, story.healed.Some?);
  }

  lemma KeptAll(p: PersistedState, log0: Log, p1: PersistedState, log1: Log, end: TickEnd, story: Story, told: Story,
                f: PersistedState, log: Log, canonical: seq<Release>, rungs: seq<Release>, w: string)
    requires told.healed.None? && told.saved == Moved(told)
    requires story == told.(healed := story.healed, saved := story.healed.Some? || told.saved)
    requires story.healed.None? ==> p1 == p
    requires story.healed.Some? ==>
               p.attempting.Some? && p1 == Counted(p, p.attempting.value) && (!told.saved ==> f == p1)
    requires p1.attempting.Some? ==> rungs == canonical
    requires forall e :: e in canonical ==> e in rungs
    requires Kept(p, log0, p1, log1, w, Lists(canonical, w), false)
    requires p1.currentVersion == p.currentVersion && Load(p1, w) == Load(p, w)
             && Get(p1.attempts, w) >= Get(p.attempts, w)
    requires TickKept(p1, log1, end, if Moved(told) then f else p1, log, w, Lists(rungs, w),
                      Strains(p1, rungs, told, w))
    ensures TickKept(p, log0, end, Latest(p, story, f), log, w, Lists(canonical, w), Hit(p, canonical, story, w))
  {
    hide StateOk, AtLeast, LatchStep, Tallied, Barred, Load, Kept;
    var listed, hit := Lists(canonical, w), Strains(p1, rungs, told, w);
    var q := if Moved(told) then f else p1;
    assert hit == Hit(p, canonical, story, w);
    KeptFewer(p1, log1, q, log, w, Lists(rungs, w), listed, hit);
    KeptAcross(p, log0, p1, log1, q, log, w, listed, hit);
    if end.Returned? {
      KeptFewer(p1, log1, end.state, log, w, Lists(rungs, w), listed, hit);
      KeptAcross(p, log0, p1, log1, end.state, log, w, listed, hit);
    }
  }

  lemma KeptFewer(p: PersistedState, log0: Log, q: PersistedState, log: Log, w: string, listed: bool, listed': bool,
                  hit: bool)
    requires Kept(p, log0, q, log, w, listed, hit) && (listed' ==> listed)
    ensures Kept(p, log0, q, log, w, listed', hit)
  {
  }

  // The tick after the resume block.
  method ProceedTick(host: BoxHost, state: PersistedState, canonical: seq<Release>, input: TickInput, healed: bool,
                     ghost w: string)
    returns (end: TickEnd, ghost story: Story)
    requires StampSafe(host.disk, host.log.bases) && StateOk(state)
    requires Placeable(canonical, state.currentVersion)
    requires healed ==> OrdinalOf(canonical, state.currentVersion).Some?
    modifies host
    ensures StampSafe(host.disk, host.log.bases)
    ensures story.healed.None? && story.saved == Moved(story)
    ensures !story.saved ==> host.disk.state == old(host.disk).state
    ensures story.cause == Some(BoothSilent) ==> !healed && !story.saved
    ensures story.cause != Some(HealUnsaved)
    ensures story.synthesized.Some? ==>
              && state.attempting.None? && OrdinalOf(canonical, state.currentVersion).None?
              && AppPinDigest(old(host.disk)) == story.synthesized
    ensures host.saves >= old(host.saves) && story.saved == (host.saves > old(host.saves))
    ensures var rungs := Rungs(canonical, state.currentVersion, story.synthesized);
            && (forall e :: e in canonical ==> e in rungs)
            && Stepped(state, old(host.disk).state, rungs, input, end, story, host.disk.state, healed)
            && TickKept(state, old(host.log), end, if Moved(story) then host.disk.state else state, host.log, w,
                        Lists(rungs, w), Strains(state, rungs, story, w))
    ensures Guards(state, old(host.disk), old(host.log).bases, end, story, host.disk, host.log.bases)
    ensures Untouched(story, host.disk)
    ensures Proceeded(OutlookOf(host), state, old(host.disk), canonical, input, end, story)
  {
    hide IsBelow, Ladder, StampSafe, Guarded, Kept, TickKept, StateOk, Guards, Untouched, Stepped, Progressed, Lists,
         Strains, Parse, Placeable, AppPinDigest, Honored, RestartDue, EnsureCurrent, ToLibState, OrdinalOf, ControlOf;
    ghost var log, d0 := host.log, host.disk;
    var r, rungs;
    ghost var synthesized;
    StateParses(state);
    r, rungs, synthesized := HealVanishedCurrent(host, state, canonical);
    if r.Died? {
      end, story := Dead, Quiet.(synthesized := synthesized);
      HoldSteps(state, d0, host.disk, rungs, input, end, story, host.log, w, Lists(rungs, w), healed);
      return;
    }
    LibIff(state, rungs);
    var s := ToLib(state, rungs);
    if s.None? {
      end, story := HoldTick(host, state, input);
      story := story.(synthesized := synthesized);
      HoldSteps(state, d0, host.disk, rungs, input, end, story, host.log, w, Lists(rungs, w), healed);
      HeldProgress(OutlookOf(host), state, rungs, input, d0.env.Some?, end, story);
      return;
    }
    end, story := StepTick(host, state, rungs, s.value, input, healed, w);
    ghost var plain := story;
    story := story.(synthesized := synthesized);
    SameSteps(state, d0.state, rungs, input, end, plain, story, host.disk.state, healed);
    SameStrains(state, rungs, plain, story, w);
    SameGuards(state, d0, log.bases, end, plain, story, host.disk, host.log.bases);
    SameUntouched(plain, story, host.disk);
    SameProgress(OutlookOf(host), state, rungs, input, d0.env.Some?, end, plain, story);
    if d0.env.Some? { AllLandReturns(OutlookOf(host), state, rungs, input, end, story); }
    UnmovedFile(state, d0.state, rungs, input, end, story, host.disk.state, healed);
  }

  // What the tick comes to after its resume block, when effects land.
  ghost predicate Proceeded(k: Outlook, p: PersistedState, d: Disk, canonical: seq<Release>, input: TickInput,
                            end: TickEnd, story: Story)
  {
    k.calm && input.heartbeat.Some? ==>
      && story.synthesized == Vanished(p, canonical, d)
      && Progressed(k, p, Rungs(canonical, p.currentVersion, story.synthesized), input, d.env.Some?, end, story)
      && (d.env.Some? && k.migrating.Always? && k.restarting.Always? && k.marking.Always? ==> end.Returned?)
  }

  lemma HeldProgress(k: Outlook, p: PersistedState, rungs: seq<Release>, input: TickInput, hasEnv: bool, end: TickEnd,
                     story: Story)
    requires ToLibState(p, rungs).None?
    ensures Progressed(k, p, rungs, input, hasEnv, end, story)
  {
  }

  lemma AllLandReturns(k: Outlook, p: PersistedState, rungs: seq<Release>, input: TickInput, end: TickEnd, story: Story)
    requires ToLibState(p, rungs).Some?
    requires Progressed(k, p, rungs, input, true, end, story)
    ensures k.calm && input.heartbeat.Some? && k.migrating.Always? && k.restarting.Always? && k.marking.Always? ==>
              end.Returned?
  {
    hide Expected, ToLibState, Honored, RestartDue, NextRung;
  }

  lemma SameGuards(p: PersistedState, d0: Disk, b0: map<string, Baseline>, end: TickEnd, a: Story, b: Story, d: Disk,
                   bases: map<string, Baseline>)
    requires a.began == b.began && a.settled == b.settled && Guards(p, d0, b0, end, a, d, bases)
    ensures Guards(p, d0, b0, end, b, d, bases)
  {
    hide StampSafe, Guarded;
  }

  lemma UnmovedFile(p: PersistedState, f0: PersistedState, rungs: seq<Release>, input: TickInput, end: TickEnd,
                    story: Story, f: PersistedState, healed: bool)
    requires Stepped(p, f0, rungs, input, end, story, f, healed)
    ensures !Moved(story) ==> f == f0
  {
  }

  lemma LibIff(p: PersistedState, canonical: seq<Release>)
    ensures ToLibState(p, canonical).Some? <==> OrdinalOf(canonical, p.currentVersion).Some?
  {
  }

  lemma SameStrains(p: PersistedState, rungs: seq<Release>, a: Story, b: Story, w: string)
    requires a.settled == b.settled
    ensures Strains(p, rungs, a, w) == Strains(p, rungs, b, w)
  {
  }

  lemma HoldSteps(p: PersistedState, d0: Disk, d: Disk, rungs: seq<Release>, input: TickInput, end: TickEnd,
                  story: Story, log: Log, w: string, listed: bool, healed: bool)
    requires StateOk(p) && StampSafe(d0, log.bases) && d == d0.(state := d.state)
    requires story == Quiet.(saved := story.saved, marked := story.saved, cause := story.cause,
                             synthesized := story.synthesized)
    requires d.state == if story.saved then Honored(p, ControlOf(input)) else d0.state
    requires end.Returned? ==> end.state == Honored(p, ControlOf(input)) && (story.saved <==> end.state != p)
    requires story.saved ==> end.Returned?
    requires end.Escaped? <==> story.cause.Some?
    requires match story.cause
             case Some(RestartFailed) => RestartDue(p, ControlOf(input))
             case Some(MarksUnsaved) => Honored(p, ControlOf(input)) != p
             case Some(c) => c.BoothSilent?
             case None => true
    ensures Stepped(p, d0.state, rungs, input, end, story, d.state, healed)
    ensures TickKept(p, log, end, if Moved(story) then d.state else p, log, w, listed, Strains(p, rungs, story, w))
    ensures Guards(p, d0, log.bases, end, story, d, log.bases) && StampSafe(d, log.bases) && Untouched(story, d)
  {
    hide Stepped, TickKept, StateOk, Guarded, StampSafe, Guards, RestartDue, Honored;
    var plain := story.(synthesized := None);
    HoldStepped(p, d0.state, rungs, input, end, plain, d.state, healed);
    SameSteps(p, d0.state, rungs, input, end, plain, story, d.state, healed);
    HoldKept(p, log, end, story, ControlOf(input), Latest(p, story, d.state), w, listed);
    HonoredIsMarks(p, p, ControlOf(input));
    EndGuards(p, story, end, d0, log.bases, d0, log.bases, "", false, false, d);
    GuardsStamp(p, d0, log.bases, end, story, d, log.bases);
  }

  lemma SameSteps(p: PersistedState, f0: PersistedState, rungs: seq<Release>, input: TickInput, end: TickEnd,
                  a: Story, b: Story, f: PersistedState, healed: bool)
    requires Stepped(p, f0, rungs, input, end, a, f, healed)
    requires b == a.(synthesized := b.synthesized, healed := b.healed, saved := b.saved)
    ensures Stepped(p, f0, rungs, input, end, b, f, healed)
  {
    hide Concluded, Honored, RestartDue, ToLibState, NextRung, Warranted;
  }
}
