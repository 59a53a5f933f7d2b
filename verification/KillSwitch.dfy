// apps/box/src/kill-switch-client.ts: the box's kill switch, under a network that may delay,
// drop, repeat and replay signals and a clock that may run backwards.
module KillSwitch {
  import opened Options
  import opened Characters

  datatype Flag = Live | Off
  datatype Claims =
    | Lease(boxId: string, flag: Flag, generation: int, expiresAt: int)
    | Control(boxId: string, flag: Flag, generation: int, desiredVersion: Option<string>)
    | Malformed
  datatype Envelope = Envelope(claims: Claims, sig: string)

  // verify: whether the booth's key signed these claims. graceMs: the fail-open window.
  datatype Config = Config(verify: Envelope -> bool, graceMs: int)

  datatype State = State(
    stickyOff: bool, generation: int, graceDeadline: Option<int>, maxWallSeen: int,
    lastVerifiedLiveAt: Option<int>, versionFloor: Option<string>, pinnedBoxId: Option<string>)

  datatype Decision = Allow | Block
  datatype Evaluation = Evaluation(state: State, decision: Decision)

  function Initial(): State { State(false, 0, None, 0, None, None, None) }

  function Max(a: int, b: int): int { if a < b then b else a }

  // ---- the state machine --------------------------------------------------------------------

  function Tick(state: State, now: int): State { state.(maxWallSeen := Max(now, state.maxWallSeen)) }

  // With no fresh live lease: sticky off blocks, else fail open inside the grace window only.
  function Grace(base: State): Evaluation {
    if base.stickyOff then Evaluation(base, Block)
    else if base.graceDeadline.Some? && base.maxWallSeen < base.graceDeadline.value then Evaluation(base, Allow)
    else Evaluation(base, Block)
  }

  function ApplyLease(state: State, lease: Envelope, cfg: Config, now: int): Evaluation {
    var base := Tick(state, now);
    if !cfg.verify(lease) then Grace(base)
    else if !lease.claims.Lease? then Grace(base)
    else
      var c := lease.claims;
      if base.pinnedBoxId.Some? && c.boxId != base.pinnedBoxId.value then Grace(base)
      else if c.generation < base.generation then Grace(base)
      else if c.flag.Off? then
        Evaluation(base.(stickyOff := true, generation := c.generation, pinnedBoxId := Some(c.boxId)), Block)
      else if c.expiresAt <= base.maxWallSeen then Grace(base)
      else
        Evaluation(
          base.(stickyOff := false, generation := c.generation, graceDeadline := Some(base.maxWallSeen + cfg.graceMs),
                lastVerifiedLiveAt := Some(base.maxWallSeen), pinnedBoxId := Some(c.boxId)),
          Allow)
  }

  function ApplyUnreachable(state: State, now: int): Evaluation { Grace(Tick(state, now)) }

  function BootDecision(state: State, now: int): Evaluation { Grace(Tick(state, now)) }

  datatype ControlResult = ControlResult(state: State, decision: Decision, accepted: bool,
                                         desiredVersion: Option<string>)

  function ApplyControl(state: State, control: Envelope, cfg: Config, now: int): ControlResult {
    var base := Tick(state, now);
    var reject := ControlResult(base, if base.stickyOff then Block else Allow, false, None);
    if !cfg.verify(control) then reject
    else if !control.claims.Control? then reject
    else
      var c := control.claims;
      if base.pinnedBoxId.Some? && c.boxId != base.pinnedBoxId.value then reject
      else if c.generation < base.generation then reject
      else if c.flag.Off? then
        ControlResult(base.(stickyOff := true, generation := c.generation, pinnedBoxId := Some(c.boxId)),
                      Block, true, c.desiredVersion)
      else
        var next := base.(stickyOff := false, generation := c.generation,
                          versionFloor := UpdateVersionFloor(base.versionFloor, c.desiredVersion),
                          pinnedBoxId := Some(c.boxId));
        ControlResult(next,
                      if next.graceDeadline.Some? && next.graceDeadline.value > base.maxWallSeen then Allow else Block,
                      true, c.desiredVersion)
  }

  // ---- versions -------------------------------------------------------------------------------

  predicate IsNumeral(s: string) { s != "" && forall i :: 0 <= i < |s| ==> IsDigit(s[i]) }

  function Split(s: string): (parts: seq<string>)
    ensures |parts| > 0
  {
    if s == "" then [""]
    else
      var rest := Split(s[1..]);
      if s[0] == '.' then [""] + rest else [[s[0]] + rest[0]] + rest[1..]
  }

  // The dotted numbers of a version, or nothing when any part is not all digits.
  function ParseVersion(v: string): Option<seq<nat>> {
    var parts := Split(v);
    if forall i :: 0 <= i < |parts| ==> IsNumeral(parts[i])
    then Some(seq(|parts|, i requires 0 <= i < |parts| => if IsNumeral(parts[i]) then NumberOf(parts[i]) else 0))
    else None
  }

  function At(v: seq<nat>, i: nat): nat { if i < |v| then v[i] else 0 }

  // The first place two versions differ from i on, missing places counting as zero.
  function CompareFrom(a: seq<nat>, b: seq<nat>, i: nat): (r: int)
    ensures r in {-1, 0, 1}
    decreases Max(|a|, |b|) - i
  {
    if i >= Max(|a|, |b|) then 0
    else if At(a, i) != At(b, i) then (if At(a, i) < At(b, i) then -1 else 1)
    else CompareFrom(a, b, i + 1)
  }

  function CompareVersions(a: string, b: string): Option<int> {
    var pa, pb := ParseVersion(a), ParseVersion(b);
    if pa.None? || pb.None? then None else Some(CompareFrom(pa.value, pb.value, 0))
  }

  // The loop itself.
  method Compare(a: seq<nat>, b: seq<nat>) returns (r: int)
    ensures r == CompareFrom(a, b, 0)
    ensures r == 0 <==> forall k :: At(a, k) == At(b, k)
    ensures r == -1 <==>
              exists k: nat {:trigger At(a, k)} ::
                && At(a, k) < At(b, k)
                && forall j: nat {:trigger At(a, j)} :: j < k ==> At(a, j) == At(b, j)
  {
    var n := if |a| < |b| then |b| else |a|;
    var i := 0;
    while i < n
      invariant 0 <= i <= n && CompareFrom(a, b, i) == CompareFrom(a, b, 0)
      invariant forall j: nat {:trigger At(a, j)} :: j < i ==> At(a, j) == At(b, j)
    {
      if At(a, i) != At(b, i) { return if At(a, i) < At(b, i) then -1 else 1; }
      i := i + 1;
    }
    r := 0;
  }

  function UpdateVersionFloor(floor: Option<string>, candidate: Option<string>): Option<string> {
    if candidate.None? then floor
    else if floor.None? then candidate
    else if CompareVersions(candidate.value, floor.value) == Some(1) then candidate
    else floor
  }

  // ---- runs ---------------------------------------------------------------------------------------

  datatype Event = Validated(lease: Envelope) | Unreachable | Booted | Heartbeat(control: Envelope)
  datatype Stamped = Stamped(event: Event, now: int)

  function Step(cfg: Config, state: State, e: Stamped): State {
    match e.event
    case Validated(lease) => ApplyLease(state, lease, cfg, e.now).state
    case Unreachable => ApplyUnreachable(state, e.now).state
    case Booted => BootDecision(state, e.now).state
    case Heartbeat(control) => ApplyControl(state, control, cfg, e.now).state
  }

  // What a validate cycle or the boot gate answers; a heartbeat is not an evaluation of liveness.
  predicate Serves(cfg: Config, state: State, e: Stamped) {
    match e.event
    case Validated(lease) => ApplyLease(state, lease, cfg, e.now).decision == Allow
    case Unreachable => ApplyUnreachable(state, e.now).decision == Allow
    case Booted => BootDecision(state, e.now).decision == Allow
    case Heartbeat(_) => false
  }

  function Run(cfg: Config, state: State, run: seq<Stamped>): State
    decreases |run|
  {
    if run == [] then state else Run(cfg, Step(cfg, state, run[0]), run[1..])
  }

  // ---- which signals count ---------------------------------------------------------------------------

  function Signal(e: Event): Option<Envelope> {
    match e
    case Validated(lease) => if lease.claims.Lease? then Some(lease) else None
    case Heartbeat(control) => if control.claims.Control? then Some(control) else None
    case _ => None
  }

  // Genuine, and for this box (or the first this box ever meets).
  predicate Addressed(cfg: Config, state: State, e: Event) {
    && Signal(e).Some? && cfg.verify(Signal(e).value)
    && (state.pinnedBoxId.Some? ==> Signal(e).value.claims.boxId == state.pinnedBoxId.value)
  }

  // A live lease already expired on the box's own clock proves nothing.
  predicate Stale(state: State, e: Stamped) {
    e.event.Validated? && e.event.lease.claims.Lease? && e.event.lease.claims.flag.Live?
    && e.event.lease.claims.expiresAt <= Max(e.now, state.maxWallSeen)
  }

  predicate Effective(cfg: Config, state: State, e: Stamped) {
    Addressed(cfg, state, e.event) && !Stale(state, e)
  }

  function GenerationOf(e: Event): int
    requires Signal(e).Some?
  {
    Signal(e).value.claims.generation
  }

  // A signal moves the state exactly when it is effective and no older than what was seen; any
  // other moves the clock guard and nothing else.
  lemma MovesIff(cfg: Config, state: State, e: Stamped)
    ensures Effective(cfg, state, e) && GenerationOf(e.event) >= state.generation ==>
              var next := Step(cfg, state, e);
              && next.generation == GenerationOf(e.event)
              && next.stickyOff == Signal(e.event).value.claims.flag.Off?
              && next.pinnedBoxId == Some(Signal(e.event).value.claims.boxId)
    ensures !(Effective(cfg, state, e) && GenerationOf(e.event) >= state.generation) ==>
              Step(cfg, state, e) == Tick(state, e.now)
    ensures Step(cfg, state, e).maxWallSeen == Max(e.now, state.maxWallSeen)
  {
    hide UpdateVersionFloor;
  }

  // Once latched, off ends in exactly one way: a genuine live signal for this box, not below the
  // generation seen, and not an expired lease.
  lemma StickyClearsIff(cfg: Config, state: State, e: Stamped)
    requires state.stickyOff
    ensures !Step(cfg, state, e).stickyOff <==>
              Effective(cfg, state, e) && GenerationOf(e.event) >= state.generation
              && Signal(e.event).value.claims.flag.Live?
    ensures Serves(cfg, state, e) ==> !Step(cfg, state, e).stickyOff
  {
    hide UpdateVersionFloor;
    MovesIff(cfg, state, e);
  }

  // The newer half of "strictly newer" rests on the booth: the same generation, live, clears an off.
  lemma EqualGenerationClears(cfg: Config, box: string, g: int, expiresAt: int, sig: string)
    requires g >= 0 && expiresAt > 0
    requires cfg.verify(Envelope(Lease(box, Off, g, expiresAt), sig))
             && cfg.verify(Envelope(Lease(box, Live, g, expiresAt), sig))
    ensures var latched := Step(cfg, Initial(), Stamped(Validated(Envelope(Lease(box, Off, g, expiresAt), sig)), 0));
            && latched.stickyOff && latched.generation == g
            && Serves(cfg, latched, Stamped(Validated(Envelope(Lease(box, Live, g, expiresAt), sig)), 0))
  {
  }

  lemma {:induction false} ClockNeverRunsBack(cfg: Config, state: State, run: seq<Stamped>)
    ensures Run(cfg, state, run).maxWallSeen >= state.maxWallSeen
    ensures forall i :: 0 <= i < |run| ==> Run(cfg, state, run).maxWallSeen >= run[i].now
    decreases |run|
  {
    hide Step;
    if run != [] {
      MovesIff(cfg, state, run[0]);
      ClockNeverRunsBack(cfg, Step(cfg, state, run[0]), run[1..]);
      assert forall i :: 1 <= i < |run| ==> run[i] == run[1..][i - 1];
    }
  }

  // ---- convergence --------------------------------------------------------------------------------------

  // The booth issues one kill state per generation for this box.
  ghost predicate OneStatePer(cfg: Config, box: string, k: int -> Flag) {
    forall env: Envelope {:trigger cfg.verify(env)} ::
      cfg.verify(env) && !env.claims.Malformed? && env.claims.boxId == box ==>
        env.claims.flag == k(env.claims.generation)
  }

  // The generations a run effectively delivers, each judged on the clock it meets.
  function Delivered(cfg: Config, state: State, run: seq<Stamped>): set<int>
    decreases |run|
  {
    if run == [] then {}
    else
      (if Effective(cfg, state, run[0]) then {GenerationOf(run[0].event)} else {})
      + Delivered(cfg, Step(cfg, state, run[0]), run[1..])
  }

  ghost predicate Agrees(state: State, box: string, k: int -> Flag) {
    state.pinnedBoxId == Some(box) && (state.stickyOff <==> k(state.generation).Off?)
  }

  lemma StepAgrees(cfg: Config, state: State, e: Stamped, box: string, k: int -> Flag)
    requires OneStatePer(cfg, box, k) && Agrees(state, box, k)
    ensures Agrees(Step(cfg, state, e), box, k)
    ensures Step(cfg, state, e).generation
         == if Effective(cfg, state, e) then Max(GenerationOf(e.event), state.generation) else state.generation
  {
    hide Step;
    MovesIff(cfg, state, e);
  }

  // Any order, any duplication, any replay: a run ends at the highest generation it delivered, in
  // that generation's kill state.
  lemma {:induction false} Converges(cfg: Config, state: State, run: seq<Stamped>, box: string, k: int -> Flag)
    requires OneStatePer(cfg, box, k) && Agrees(state, box, k)
    ensures var final := Run(cfg, state, run);
            && Agrees(final, box, k)
            && final.generation in Delivered(cfg, state, run) + {state.generation}
            && forall g :: g in Delivered(cfg, state, run) + {state.generation} ==> g <= final.generation
    decreases |run|
  {
    hide Step, OneStatePer, Agrees, Effective;
    if run != [] {
      StepAgrees(cfg, state, run[0], box, k);
      Converges(cfg, Step(cfg, state, run[0]), run[1..], box, k);
    }
  }

  // Two histories that deliver the same generations leave the same kill state behind.
  lemma OrderDoesNotMatter(cfg: Config, a: State, b: State, left: seq<Stamped>, right: seq<Stamped>, box: string,
                           k: int -> Flag)
    requires OneStatePer(cfg, box, k) && Agrees(a, box, k) && Agrees(b, box, k)
    requires Delivered(cfg, a, left) + {a.generation} == Delivered(cfg, b, right) + {b.generation}
    ensures Run(cfg, a, left).generation == Run(cfg, b, right).generation
    ensures Run(cfg, a, left).stickyOff == Run(cfg, b, right).stickyOff
  {
    hide Run, Delivered, OneStatePer;
    Converges(cfg, a, left, box, k);
    Converges(cfg, b, right, box, k);
  }

  // No evaluation of the run serves.
  ghost predicate NeverServes(cfg: Config, state: State, run: seq<Stamped>)
    decreases |run|
  {
    run == [] || (!Serves(cfg, state, run[0]) && NeverServes(cfg, Step(cfg, state, run[0]), run[1..]))
  }

  // After an off at generation g, nothing serves until a live signal above g is delivered.
  lemma {:induction false} OffHolds(cfg: Config, state: State, run: seq<Stamped>, box: string, k: int -> Flag, g: int)
    requires OneStatePer(cfg, box, k) && Agrees(state, box, k) && state.stickyOff && state.generation >= g
    requires forall x :: x in Delivered(cfg, state, run) && k(x).Live? ==> x <= g
    ensures NeverServes(cfg, state, run) && Run(cfg, state, run).stickyOff
    decreases |run|
  {
    hide Step, OneStatePer, Effective, Serves;
    if run != [] {
      StickyClearsIff(cfg, state, run[0]);
      StepAgrees(cfg, state, run[0], box, k);
      OffSurvives(cfg, state, run, box, k, g);
      OffHolds(cfg, Step(cfg, state, run[0]), run[1..], box, k, g);
    }
  }

  lemma OffSurvives(cfg: Config, state: State, run: seq<Stamped>, box: string, k: int -> Flag, g: int)
    requires OneStatePer(cfg, box, k) && Agrees(state, box, k) && state.stickyOff && state.generation >= g && run != []
    requires forall x :: x in Delivered(cfg, state, run) && k(x).Live? ==> x <= g
    ensures Step(cfg, state, run[0]).stickyOff && Step(cfg, state, run[0]).generation >= g
    ensures forall x :: x in Delivered(cfg, Step(cfg, state, run[0]), run[1..]) && k(x).Live? ==> x <= g
  {
    hide Step, Stale;
    MovesIff(cfg, state, run[0]);
    StepAgrees(cfg, state, run[0], box, k);
    if Effective(cfg, state, run[0]) { assert GenerationOf(run[0].event) in Delivered(cfg, state, run); }
  }

  // ---- the dead man ----------------------------------------------------------------------------------------

  // The grace window is always the last fresh live lease plus the grace period.
  ghost predicate Anchored(cfg: Config, state: State) {
    state.graceDeadline == match state.lastVerifiedLiveAt case None => None case Some(t) => Some(t + cfg.graceMs)
  }

  // When a box may serve: not sticky off, and either a fresh live lease in hand or inside the window.
  lemma ServesIff(cfg: Config, state: State, e: Stamped)
    requires Anchored(cfg, state)
    ensures Anchored(cfg, Step(cfg, state, e))
    ensures var next := Step(cfg, state, e);
            Serves(cfg, state, e) <==>
              && !e.event.Heartbeat? && !next.stickyOff && next.lastVerifiedLiveAt.Some?
              && (next.maxWallSeen < next.lastVerifiedLiveAt.value + cfg.graceMs || FreshLease(cfg, state, e))
  {
    hide UpdateVersionFloor;
  }

  predicate FreshLease(cfg: Config, state: State, e: Stamped) {
    && e.event.Validated? && Effective(cfg, state, e) && e.event.lease.claims.flag.Live?
    && e.event.lease.claims.generation >= state.generation
  }

  // Every live lease ever signed has expired by then.
  ghost predicate AllExpireBy(cfg: Config, end: int) {
    forall env: Envelope {:trigger cfg.verify(env)} ::
      cfg.verify(env) && env.claims.Lease? && env.claims.flag.Live? ==> env.claims.expiresAt <= end
  }

  ghost predicate LivedBefore(state: State, end: int) {
    state.lastVerifiedLiveAt.Some? ==> state.lastVerifiedLiveAt.value < end
  }

  lemma StepLivedBefore(cfg: Config, state: State, e: Stamped, end: int)
    requires Anchored(cfg, state) && AllExpireBy(cfg, end) && LivedBefore(state, end)
    ensures Anchored(cfg, Step(cfg, state, e)) && LivedBefore(Step(cfg, state, e), end)
    ensures Serves(cfg, state, e) ==> Step(cfg, state, e).maxWallSeen < end + Max(cfg.graceMs, 0)
  {
    hide UpdateVersionFloor;
    ServesIff(cfg, state, e);
    if e.event.Validated? { assert cfg.verify(e.event.lease) || !cfg.verify(e.event.lease); }
  }

  // No evaluation serves at or past the bound on the box's own clock.
  ghost predicate ServesOnlyBefore(cfg: Config, state: State, run: seq<Stamped>, bound: int)
    decreases |run|
  {
    run == [] ||
    (&& (Serves(cfg, state, run[0]) ==> Max(run[0].now, state.maxWallSeen) < bound)
     && ServesOnlyBefore(cfg, Step(cfg, state, run[0]), run[1..], bound))
  }

  // Cut the booth off and the box stops: one grace period after the last lease can expire, whatever
  // the network replays and wherever the clock jumps.
  lemma {:induction false} DeadMan(cfg: Config, state: State, run: seq<Stamped>, end: int)
    requires Anchored(cfg, state) && AllExpireBy(cfg, end) && LivedBefore(state, end)
    ensures ServesOnlyBefore(cfg, state, run, end + Max(cfg.graceMs, 0))
    decreases |run|
  {
    hide Step, Serves, AllExpireBy;
    if run != [] {
      StepLivedBefore(cfg, state, run[0], end);
      MovesIff(cfg, state, run[0]);
      DeadMan(cfg, Step(cfg, state, run[0]), run[1..], end);
    }
  }

  // A fresh box satisfies what the theorems above ask, and a heartbeat never extends the window.
  lemma HeartbeatsDoNotExtendLife(cfg: Config, state: State, control: Envelope, now: int)
    ensures Anchored(cfg, Initial()) && forall end :: LivedBefore(Initial(), end)
    ensures var next := ApplyControl(state, control, cfg, now).state;
            next.graceDeadline == state.graceDeadline && next.lastVerifiedLiveAt == state.lastVerifiedLiveAt
  {
    hide UpdateVersionFloor;
  }

  // ---- the version floor --------------------------------------------------------------------------------------

  lemma {:induction false} CompareFromTransitive(a: seq<nat>, b: seq<nat>, c: seq<nat>, i: nat)
    requires CompareFrom(a, b, i) == 1 && CompareFrom(b, c, i) == 1
    ensures CompareFrom(a, c, i) == 1
    decreases Max(|a|, |b|) + Max(|b|, |c|) - i
  {
    if At(a, i) == At(b, i) && At(b, i) == At(c, i) { CompareFromTransitive(a, b, c, i + 1); }
  }

  // Above: a strictly higher version, or the very same one.
  ghost predicate AtLeast(a: Option<string>, b: Option<string>) {
    a == b || (a.Some? && (b.None? || CompareVersions(a.value, b.value) == Some(1)))
  }

  lemma AtLeastTransitive(a: Option<string>, b: Option<string>, c: Option<string>)
    requires AtLeast(a, b) && AtLeast(b, c)
    ensures AtLeast(a, c)
  {
    hide ParseVersion;
    if a.Some? && b.Some? && c.Some? && a != b && b != c {
      CompareFromTransitive(ParseVersion(a.value).value, ParseVersion(b.value).value, ParseVersion(c.value).value, 0);
    }
  }

  lemma StepKeepsFloor(cfg: Config, state: State, e: Stamped)
    ensures AtLeast(Step(cfg, state, e).versionFloor, state.versionFloor)
  {
    hide CompareVersions;
  }

  // The floor never lowers, whatever is delivered.
  lemma {:induction false} FloorOnlyClimbs(cfg: Config, state: State, run: seq<Stamped>)
    ensures AtLeast(Run(cfg, state, run).versionFloor, state.versionFloor)
    decreases |run|
  {
    hide Step, CompareVersions;
    if run != [] {
      var next := Step(cfg, state, run[0]);
      StepKeepsFloor(cfg, state, run[0]);
      FloorOnlyClimbs(cfg, next, run[1..]);
      AtLeastTransitive(Run(cfg, state, run).versionFloor, next.versionFloor, state.versionFloor);
    }
  }

  // A first floor that is not all numbers is never compared away: it stays for good.
  lemma {:induction false} UnreadableFloorStays(cfg: Config, state: State, run: seq<Stamped>)
    requires state.versionFloor.Some? && ParseVersion(state.versionFloor.value).None?
    ensures Run(cfg, state, run).versionFloor == state.versionFloor
    decreases |run|
  {
    hide ParseVersion;
    if run != [] { UnreadableFloorStays(cfg, Step(cfg, state, run[0]), run[1..]); }
  }
}
