/** Scheduling of media loads (DefaultLoadControl.java): a hysteresis controller over the registered
    loaders, the shared network priority it holds, and the rule that grants the next load. */
module LoadControl {
  import opened Basics

  /** The identity of a loader; the control only ever compares the loaders it is handed. */
  type Loader = nat

  const ABOVE_HIGH_WATERMARK := 0
  const BETWEEN_WATERMARKS := 1
  const BELOW_LOW_WATERMARK := 2

  type Watermark = w: int | ABOVE_HIGH_WATERMARK <= w <= BELOW_LOW_WATERMARK

  /** nextLoadPositionUs is -1 for a finished loader. */
  datatype LoaderState = LoaderState(
    bufferSizeContribution: int, bufferState: Watermark, loading: bool, failed: bool, nextLoadPositionUs: int)

  /** The abstract state of the control. lockCalls records the calls made to the network lock (true for
      add, false for remove) and notified the loading notifications posted. */
  datatype Control = Control(
    lowWatermarkUs: int, highWatermarkUs: int,
    loaders: seq<Loader>, states: map<Loader, LoaderState>,
    targetBufferSize: int, maxLoadStartPositionUs: int, poolState: Watermark,
    filling: bool, prioritySet: bool,
    lockCalls: seq<bool>, notified: seq<bool>)

  /** What one loader reports, together with the allocator's answers during that call. */
  datatype Report = Report(
    playbackPositionUs: int, nextLoadPositionUs: int, loading: bool, failed: bool,
    allocatedSize: int, poolState: Watermark)

  datatype Op =
    | Register(loader: Loader, bufferSizeContribution: int)
    | Unregister(loader: Loader)
    | Update(loader: Loader, report: Report)

  // ---------------------------------------------------------------- specification

  ghost predicate WellKeyed(c: Control) {
    && (forall l :: l in c.loaders <==> l in c.states)
    && Distinct(c.loaders)
  }

  ghost predicate Finished(c: Control, l: Loader)
    requires WellKeyed(c) && l in c.loaders
  {
    c.states[l].nextLoadPositionUs == -1
  }

  ghost predicate AnyLoading(c: Control)
    requires WellKeyed(c)
  {
    exists l :: l in c.loaders && c.states[l].loading
  }

  ghost predicate AnyFailed(c: Control)
    requires WellKeyed(c)
  {
    exists l :: l in c.loaders && c.states[l].failed
  }

  ghost predicate AllFinished(c: Control)
    requires WellKeyed(c)
  {
    forall l :: l in c.loaders ==> Finished(c, l)
  }

  /** Some loader, or the buffer pool, is at the given level. */
  ghost predicate AnyAt(c: Control, w: Watermark)
    requires WellKeyed(c)
  {
    c.poolState == w || exists l :: l in c.loaders && c.states[l].bufferState == w
  }

  /** Hysteresis: start filling below the low watermark, keep filling up to the high one. */
  ghost predicate ShouldFill(c: Control)
    requires WellKeyed(c)
  {
    !AllFinished(c) && !AnyFailed(c) && (AnyAt(c, BELOW_LOW_WATERMARK) || (AnyAt(c, BETWEEN_WATERMARKS) && c.filling))
  }

  /** p is the least next position among the unfinished loaders, or -1 when there is none. */
  ghost predicate IsEarliest(ls: seq<Loader>, states: map<Loader, LoaderState>, p: int)
    requires forall l :: l in ls ==> l in states
  {
    if p == -1 then forall l :: l in ls ==> states[l].nextLoadPositionUs == -1
    else && (exists l :: l in ls && states[l].nextLoadPositionUs == p)
         && (forall l :: l in ls && states[l].nextLoadPositionUs != -1 ==> p <= states[l].nextLoadPositionUs)
  }

  ghost predicate IsMaxStart(c: Control, p: int)
    requires WellKeyed(c)
  {
    if c.filling then IsEarliest(c.loaders, c.states, p) else p == -1
  }

  /** c' is what recomputing the control state makes of c. */
  ghost predicate Recomputes(c: Control, c': Control)
    requires WellKeyed(c)
  {
    var fill := ShouldFill(c);
    var acquire := fill && !c.prioritySet;
    var drop := !fill && c.prioritySet && !AnyLoading(c);
    var calls := if acquire then [true] else if drop then [false] else [];
    && c' == c.(filling := fill, prioritySet := (c.prioritySet || acquire) && !drop,
                lockCalls := c.lockCalls + calls, notified := c.notified + calls,
                maxLoadStartPositionUs := c'.maxLoadStartPositionUs)
    && IsMaxStart(c', c'.maxLoadStartPositionUs)
  }

  ghost function BufferState(c: Control, r: Report): Watermark {
    if r.nextLoadPositionUs == -1 then ABOVE_HIGH_WATERMARK
    else if r.nextLoadPositionUs - r.playbackPositionUs > c.highWatermarkUs then ABOVE_HIGH_WATERMARK
    else if r.nextLoadPositionUs - r.playbackPositionUs < c.lowWatermarkUs then BELOW_LOW_WATERMARK
    else BETWEEN_WATERMARKS
  }

  /** A loader with more media buffered is never ranked as needing a load more urgently; one that has finished ranks
      as if it had everything buffered. */
  lemma MoreBufferedNeverRanksLower(c: Control, r: Report, s: Report)
    requires c.lowWatermarkUs <= c.highWatermarkUs
    requires r.nextLoadPositionUs == -1 ||
             (s.nextLoadPositionUs != -1
              && r.nextLoadPositionUs - r.playbackPositionUs >= s.nextLoadPositionUs - s.playbackPositionUs)
    ensures BufferState(c, r) <= BufferState(c, s)
  {
  }

  /** The report has been recorded, nothing has been recomputed yet. */
  ghost function Recorded(c: Control, l: Loader, r: Report): (c': Control)
    requires WellKeyed(c) && l in c.states
    ensures WellKeyed(c')
  {
    c.(states := c.states[l := c.states[l].(bufferState := BufferState(c, r), loading := r.loading,
                                            failed := r.failed, nextLoadPositionUs := r.nextLoadPositionUs)],
       poolState := r.poolState)
  }

  ghost function Registered(c: Control, l: Loader, contribution: int): (c': Control)
    requires WellKeyed(c) && l !in c.states
    ensures WellKeyed(c')
  {
    DistinctAppend(c.loaders, l);
    c.(loaders := c.loaders + [l],
       states := c.states[l := LoaderState(contribution, ABOVE_HIGH_WATERMARK, false, false, -1)],
       targetBufferSize := c.targetBufferSize + contribution)
  }

  ghost function Removed(c: Control, l: Loader): (c': Control)
    requires WellKeyed(c) && l in c.states
    ensures WellKeyed(c')
  {
    WithoutRemovesJustOne(c.loaders, l);
    c.(loaders := Without(c.loaders, l), states := c.states - {l},
       targetBufferSize := c.targetBufferSize - c.states[l].bufferSizeContribution)
  }

  ghost predicate Legal(c: Control, op: Op) {
    && WellKeyed(c)
    && (op.Register? ==> op.loader !in c.states)
    && (!op.Register? ==> op.loader in c.states)
  }

  /** One call of the control as written: update recomputes only when something changed. */
  ghost predicate Step(c: Control, op: Op, c': Control)
    requires Legal(c, op)
  {
    match op
    case Register(l, contribution) => c' == Registered(c, l, contribution)
    case Unregister(l) => Recomputes(Removed(c, l), c')
    case Update(l, r) =>
      if Recorded(c, l, r) == c then c' == c else Recomputes(Recorded(c, l, r), c')
  }

  /** The reference control: update always recomputes. */
  ghost predicate StepAlways(c: Control, op: Op, c': Control)
    requires Legal(c, op)
  {
    match op
    case Register(l, contribution) => c' == Registered(c, l, contribution)
    case Unregister(l) => Recomputes(Removed(c, l), c')
    case Update(l, r) => Recomputes(Recorded(c, l, r), c')
  }

  /** The answer given to an update, read off the state it leaves; other calls answer nothing. */
  ghost predicate Answer(op: Op, c': Control) {
    op.Update? && op.report.allocatedSize < c'.targetBufferSize && op.report.nextLoadPositionUs != -1 &&
    op.report.nextLoadPositionUs <= c'.maxLoadStartPositionUs
  }

  ghost function Initial(lowWatermarkUs: int, highWatermarkUs: int): Control {
    Control(lowWatermarkUs, highWatermarkUs, [], map[], 0, 0, ABOVE_HIGH_WATERMARK, false, false, [], [])
  }

  // ---------------------------------------------------------------- what every call keeps

  ghost function Contributions(ls: seq<Loader>, states: map<Loader, LoaderState>): int
    requires forall l :: l in ls ==> l in states
  {
    if ls == [] then 0 else states[ls[0]].bufferSizeContribution + Contributions(ls[1..], states)
  }

  /** Adds minus removes. */
  ghost function Holds(calls: seq<bool>): int {
    if calls == [] then 0 else Holds(calls[..|calls| - 1]) + (if calls[|calls| - 1] then 1 else -1)
  }

  ghost predicate Alternating(calls: seq<bool>) {
    && (calls != [] ==> calls[0])
    && (forall i :: 0 < i < |calls| ==> calls[i] != calls[i - 1])
  }

  /** Recomputing would change nothing, except that the start position may still be Java's default 0
      while every loader is finished. */
  ghost predicate Settled(c: Control) {
    WellKeyed(c) &&
    (Recomputes(c, c) ||
     (c.maxLoadStartPositionUs == 0 && AllFinished(c) && Recomputes(c, c.(maxLoadStartPositionUs := -1))))
  }

  ghost predicate Inv(c: Control) {
    && WellKeyed(c)
    && c.targetBufferSize == Contributions(c.loaders, c.states)
    && Alternating(c.lockCalls)
    && c.notified == c.lockCalls
    && Holds(c.lockCalls) == (if c.prioritySet then 1 else 0)
    && (c.lockCalls != [] ==> c.lockCalls[|c.lockCalls| - 1] == c.prioritySet)
    && (c.lockCalls == [] ==> !c.prioritySet)
    && (c.filling ==> c.prioritySet)
    && (c.prioritySet && !c.filling ==> AnyLoading(c))
    && (c.loaders == [] ==> !c.prioritySet)
    && Settled(c)
  }

  lemma {:induction false} ContributionsFrame(ls: seq<Loader>, s: map<Loader, LoaderState>, t: map<Loader, LoaderState>)
    requires forall l :: l in ls ==> l in s && l in t && s[l].bufferSizeContribution == t[l].bufferSizeContribution
    ensures Contributions(ls, s) == Contributions(ls, t)
  {
    if ls != [] { ContributionsFrame(ls[1..], s, t); }
  }

  lemma {:induction false} ContributionsAppend(ls: seq<Loader>, l: Loader, s: map<Loader, LoaderState>)
    requires l in s && forall m :: m in ls ==> m in s
    ensures Contributions(ls + [l], s) == Contributions(ls, s) + s[l].bufferSizeContribution
  {
    if ls != [] {
      assert (ls + [l])[1..] == ls[1..] + [l];
      ContributionsAppend(ls[1..], l, s);
    }
  }

  lemma {:induction false} ContributionsWithout(ls: seq<Loader>, l: Loader, s: map<Loader, LoaderState>)
    requires l in ls && forall m :: m in ls ==> m in s
    ensures Contributions(Without(ls, l), s) == Contributions(ls, s) - s[l].bufferSizeContribution
  {
    if ls[0] != l {
      ContributionsWithout(ls[1..], l, s);
      assert Without(ls, l)[1..] == Without(ls[1..], l);
    }
  }

  lemma RecomputingIsUnique(c: Control, d: Control, e: Control)
    requires WellKeyed(c) && Recomputes(c, d) && Recomputes(c, e)
    ensures d == e
  {
    var p, q := d.maxLoadStartPositionUs, e.maxLoadStartPositionUs;
    assert p == q;
  }

  lemma RecomputingIsIdempotent(c: Control, d: Control)
    requires WellKeyed(c) && Recomputes(c, d)
    ensures WellKeyed(d) && Recomputes(d, d)
    ensures forall e :: Recomputes(d, e) ==> e == d
  {
    assert ShouldFill(d) == d.filling by {
      assert AnyAt(d, BELOW_LOW_WATERMARK) == AnyAt(c, BELOW_LOW_WATERMARK);
      assert AnyAt(d, BETWEEN_WATERMARKS) == AnyAt(c, BETWEEN_WATERMARKS);
      assert AllFinished(d) == AllFinished(c) && AnyFailed(d) == AnyFailed(c);
    }
    assert AnyLoading(d) == AnyLoading(c);
    assert Recomputes(d, d);
    forall e | Recomputes(d, e) ensures e == d { RecomputingIsUnique(d, d, e); }
  }

  lemma RegisterKeepsSettled(c: Control, l: Loader, contribution: int)
    requires Settled(c) && l !in c.states
    ensures Settled(Registered(c, l, contribution))
    ensures AnyLoading(Registered(c, l, contribution)) == AnyLoading(c)
  {
    var c' := Registered(c, l, contribution);
    assert forall m :: m in c'.loaders <==> m in c.loaders || m == l;
    assert AllFinished(c') == AllFinished(c) && AnyFailed(c') == AnyFailed(c) && AnyLoading(c') == AnyLoading(c);
    assert AnyAt(c', BELOW_LOW_WATERMARK) == AnyAt(c, BELOW_LOW_WATERMARK);
    assert AnyAt(c', BETWEEN_WATERMARKS) == AnyAt(c, BETWEEN_WATERMARKS);
    if Recomputes(c, c) {
      assert Recomputes(c', c');
    } else {
      assert Recomputes(c', c'.(maxLoadStartPositionUs := -1));
    }
  }

  lemma RegisterKeepsInv(c: Control, l: Loader, contribution: int)
    requires Inv(c) && l !in c.states
    ensures Inv(Registered(c, l, contribution))
  {
    var c' := Registered(c, l, contribution);
    ContributionsAppend(c.loaders, l, c'.states);
    ContributionsFrame(c.loaders, c.states, c'.states);
    RegisterKeepsSettled(c, l, contribution);
  }

  /** Hysteresis: filling begins only when some loader, or the pool, has fallen below its low watermark, and ends only
      when all of them are above the high one, nothing is left to load, or a load has failed. */
  lemma FillingHasHysteresis(c: Control, c': Control)
    requires WellKeyed(c) && Recomputes(c, c')
    ensures !c.filling && c'.filling ==> AnyAt(c, BELOW_LOW_WATERMARK) && !AllFinished(c) && !AnyFailed(c)
    ensures c.filling && !c'.filling ==>
              || AllFinished(c) || AnyFailed(c)
              || (c.poolState == ABOVE_HIGH_WATERMARK
                  && forall l :: l in c.loaders ==> c.states[l].bufferState == ABOVE_HIGH_WATERMARK)
  {
    if c.filling && !c'.filling && !AllFinished(c) && !AnyFailed(c) {
      forall l | l in c.loaders ensures c.states[l].bufferState == ABOVE_HIGH_WATERMARK {
        assert !AnyAt(c, BELOW_LOW_WATERMARK) && !AnyAt(c, BETWEEN_WATERMARKS);
      }
    }
  }

  /** Recomputing re-establishes everything but the bookkeeping of sizes and of the calls made. */
  lemma RecomputingRestoresInv(b: Control, c': Control)
    requires WellKeyed(b) && Recomputes(b, c')
    requires b.targetBufferSize == Contributions(b.loaders, b.states)
    requires Alternating(b.lockCalls) && b.notified == b.lockCalls
    requires Holds(b.lockCalls) == (if b.prioritySet then 1 else 0)
    requires b.lockCalls != [] ==> b.lockCalls[|b.lockCalls| - 1] == b.prioritySet
    requires b.lockCalls == [] ==> !b.prioritySet
    ensures Inv(c')
  {
    RecomputingIsIdempotent(b, c');
    if c'.lockCalls != b.lockCalls {
      var call := c'.lockCalls[|b.lockCalls|];
      assert c'.lockCalls == b.lockCalls + [call];
      assert c'.lockCalls[..|c'.lockCalls| - 1] == b.lockCalls;
    }
    assert AnyLoading(c') == AnyLoading(b);
  }

  /** Every call keeps the bookkeeping and leaves the cached control state settled. */
  lemma StepKeepsInv(c: Control, op: Op, c': Control)
    requires Inv(c) && Legal(c, op) && Step(c, op, c')
    ensures Inv(c')
  {
    match op
    case Register(l, contribution) =>
      RegisterKeepsInv(c, l, contribution);
    case Unregister(l) =>
      var b := Removed(c, l);
      ContributionsWithout(c.loaders, l, c.states);
      ContributionsFrame(b.loaders, c.states, b.states);
      RecomputingRestoresInv(b, c');
    case Update(l, r) =>
      var b := Recorded(c, l, r);
      ContributionsFrame(c.loaders, c.states, b.states);
      if b != c { RecomputingRestoresInv(b, c'); }
  }

  // ---------------------------------------------------------------- skipping is unobservable

  /** The guarded control g and the reference a differ at most in a start position not yet computed. */
  ghost predicate Agree(g: Control, a: Control) {
    && Settled(g)
    && (a == g || Recomputes(g, a))
  }

  lemma RecomputingIgnoresMaxStart(c: Control, p: int, c': Control)
    requires WellKeyed(c)
    ensures Recomputes(c.(maxLoadStartPositionUs := p), c') == Recomputes(c, c')
  {
    var d := c.(maxLoadStartPositionUs := p);
    assert ShouldFill(d) == ShouldFill(c) && AnyLoading(d) == AnyLoading(c);
  }

  /** A settled control and its recomputation differ in nothing but the start position. */
  lemma AgreeUpToMaxStart(g: Control, a: Control)
    requires Agree(g, a)
    ensures a == g.(maxLoadStartPositionUs := a.maxLoadStartPositionUs)
    ensures a != g ==> g.maxLoadStartPositionUs == 0 && a.maxLoadStartPositionUs == -1 && AllFinished(g)
  {
    if Recomputes(g, a) {
      if Recomputes(g, g) { RecomputingIsUnique(g, g, a); }
      else { RecomputingIsUnique(g, g.(maxLoadStartPositionUs := -1), a); }
    }
  }

  lemma RegistersAgree(g: Control, a: Control, l: Loader, contribution: int)
    requires Agree(g, a) && l !in g.states && l !in a.states
    ensures WellKeyed(a) && Agree(Registered(g, l, contribution), Registered(a, l, contribution))
  {
    AgreeUpToMaxStart(g, a);
    RegisterKeepsSettled(g, l, contribution);
    var r := Registered(g, l, contribution);
    if a != g {
      assert Registered(a, l, contribution) == r.(maxLoadStartPositionUs := -1);
      assert AllFinished(r);
      assert Recomputes(r, r.(maxLoadStartPositionUs := -1));
    }
  }

  lemma RecomputationsAgree(g: Control, a: Control, p: int, g': Control, a': Control)
    requires WellKeyed(g) && a == g.(maxLoadStartPositionUs := p) && Recomputes(g, g') && Recomputes(a, a')
    ensures g' == a'
  {
    RecomputingIgnoresMaxStart(g, p, a');
    RecomputingIsUnique(g, g', a');
  }

  lemma SkippedUpdateAgrees(g: Control, a: Control, l: Loader, r: Report, a': Control)
    requires Agree(g, a) && WellKeyed(a) && l in g.states && l in a.states
    requires Recorded(g, l, r) == g && Recomputes(Recorded(a, l, r), a')
    ensures Agree(g, a') && Answer(Update(l, r), g) == Answer(Update(l, r), a')
  {
    AgreeUpToMaxStart(g, a);
    assert Recorded(g, l, r).states[l].nextLoadPositionUs == r.nextLoadPositionUs;
    assert Recorded(a, l, r) == a;
    RecomputingIgnoresMaxStart(g, a.maxLoadStartPositionUs, a');
    AgreeUpToMaxStart(g, a');
    assert AllFinished(g) ==> Finished(g, l);
  }

  lemma StepsAgree(g: Control, a: Control, op: Op, g': Control, a': Control)
    requires Agree(g, a) && Legal(g, op) && Legal(a, op)
    requires Step(g, op, g') && StepAlways(a, op, a') && Settled(g')
    ensures Agree(g', a') && Answer(op, g') == Answer(op, a')
  {
    AgreeUpToMaxStart(g, a);
    var p := a.maxLoadStartPositionUs;
    match op
    case Register(l, contribution) =>
      RegistersAgree(g, a, l, contribution);
    case Unregister(l) =>
      RecomputationsAgree(Removed(g, l), Removed(a, l), p, g', a');
    case Update(l, r) =>
      if Recorded(g, l, r) == g {
        SkippedUpdateAgrees(g, a, l, r, a');
      } else {
        RecomputationsAgree(Recorded(g, l, r), Recorded(a, l, r), p, g', a');
      }
  }

  ghost predicate IsRun(trace: seq<Control>, ops: seq<Op>) {
    && |trace| == |ops| + 1
    && forall i :: 0 <= i < |ops| ==> Legal(trace[i], ops[i]) && Step(trace[i], ops[i], trace[i + 1])
  }

  ghost predicate IsAlwaysRun(trace: seq<Control>, ops: seq<Op>) {
    && |trace| == |ops| + 1
    && forall i :: 0 <= i < |ops| ==> Legal(trace[i], ops[i]) && StepAlways(trace[i], ops[i], trace[i + 1])
  }

  /** Safety over whole runs: the invariant holds after every call. */
  lemma {:induction false} RunKeepsInv(trace: seq<Control>, ops: seq<Op>, low: int, high: int, i: nat)
    requires IsRun(trace, ops) && trace[0] == Initial(low, high) && i < |trace|
    ensures Inv(trace[i])
  {
    if i == 0 {
      assert Recomputes(trace[0], trace[0].(maxLoadStartPositionUs := -1));
    } else {
      RunKeepsInv(trace, ops, low, high, i - 1);
      StepKeepsInv(trace[i - 1], ops[i - 1], trace[i]);
    }
  }

  /** Skipping the recomputation cannot be observed: over any run the guarded control answers what the
      always-recomputing one answers, and reaches its state up to the initial start position. */
  lemma {:induction false} SkippingIsUnobservable(g: seq<Control>, a: seq<Control>, ops: seq<Op>, low: int, high: int,
      i: nat)
    requires IsRun(g, ops) && IsAlwaysRun(a, ops) && g[0] == a[0] == Initial(low, high) && i < |g|
    ensures Agree(g[i], a[i])
    ensures a[i] == g[i].(maxLoadStartPositionUs := a[i].maxLoadStartPositionUs)
    ensures i > 0 ==> Answer(ops[i - 1], g[i]) == Answer(ops[i - 1], a[i])
  {
    RunKeepsInv(g, ops, low, high, i);
    if i > 0 {
      SkippingIsUnobservable(g, a, ops, low, high, i - 1);
      RunKeepsInv(g, ops, low, high, i - 1);
      assert Legal(a[i - 1], ops[i - 1]);
      StepsAgree(g[i - 1], a[i - 1], ops[i - 1], g[i], a[i]);
    }
    AgreeUpToMaxStart(g[i], a[i]);
  }

  // ---------------------------------------------------------------- the grant rule

  /** The loader is unfinished, the pool is short of data, and nobody unfinished is further behind. */
  ghost predicate FurthestBehind(c: Control, l: Loader, r: Report)
    requires WellKeyed(c)
  {
    && c.filling && r.allocatedSize < c.targetBufferSize && r.nextLoadPositionUs != -1
    && forall m :: m in c.loaders && !Finished(c, m) ==> r.nextLoadPositionUs <= c.states[m].nextLoadPositionUs
  }

  /** An update is granted exactly when the caller is furthest behind in a filling control. The one other
      case is a next position below -1 reported to a control that is not filling. */
  lemma GrantedExactlyWhenFurthestBehind(c: Control, l: Loader, r: Report, c': Control)
    requires Inv(c) && Legal(c, Update(l, r)) && Step(c, Update(l, r), c')
    ensures WellKeyed(c')
    ensures Answer(Update(l, r), c') <==>
              FurthestBehind(c', l, r) ||
              (!c'.filling && r.allocatedSize < c'.targetBufferSize && r.nextLoadPositionUs < -1)
  {
    StepKeepsInv(c, Update(l, r), c');
    var b := Recorded(c, l, r);
    assert l in c'.loaders && c'.states[l] == b.states[l];
    assert c'.states[l].nextLoadPositionUs == r.nextLoadPositionUs;
    if r.nextLoadPositionUs != -1 {
      assert !Finished(c', l);
      assert IsMaxStart(c', c'.maxLoadStartPositionUs);
    }
  }

  /** Of two loaders reporting in turn with nothing else changing, only the one behind can be granted. */
  lemma OnlyTheOneBehindIsGranted(c: Control, l: Loader, r: Report, m: Loader, c': Control)
    requires Inv(c) && Legal(c, Update(l, r)) && Step(c, Update(l, r), c')
    requires r.nextLoadPositionUs >= -1 && m in c.states && m != l
    requires -1 < c.states[m].nextLoadPositionUs < r.nextLoadPositionUs
    ensures !Answer(Update(l, r), c')
  {
    GrantedExactlyWhenFurthestBehind(c, l, r, c');
    assert c'.states[m] == c.states[m] && !Finished(c', m);
  }

  // ---------------------------------------------------------------- what the reports alone decide

  /** The i-th call is an update, and nothing has been heard of its loader since. */
  ghost predicate Stands(ops: seq<Op>, i: int) {
    0 <= i < |ops| && ops[i].Update? && forall j :: i < j < |ops| ==> ops[j].loader != ops[i].loader
  }

  /** Some loader's last report says that its load has failed. */
  ghost predicate SomeFailed(ops: seq<Op>) {
    exists i :: Stands(ops, i) && ops[i].report.failed
  }

  ghost predicate SomeLoading(ops: seq<Op>) {
    exists i :: Stands(ops, i) && ops[i].report.loading
  }

  /** Some loader's last report names a next position to load from. */
  ghost predicate SomeUnfinished(ops: seq<Op>) {
    exists i :: Stands(ops, i) && ops[i].report.nextLoadPositionUs != -1
  }

  /** How much a report says is buffered ahead of playback. */
  function AheadUs(r: Report): int {
    r.nextLoadPositionUs - r.playbackPositionUs
  }

  /** Some unfinished loader has less buffered than the low watermark. */
  ghost predicate SomeBelow(ops: seq<Op>, low: int, high: int) {
    exists i :: Stands(ops, i) && ops[i].report.nextLoadPositionUs != -1
                && AheadUs(ops[i].report) < low && AheadUs(ops[i].report) <= high
  }

  /** Some unfinished loader is between the watermarks. */
  ghost predicate SomeBetween(ops: seq<Op>, low: int, high: int) {
    exists i :: Stands(ops, i) && ops[i].report.nextLoadPositionUs != -1 && low <= AheadUs(ops[i].report) <= high
  }

  /** How full the buffer pool was at the last update. */
  function PoolAfter(ops: seq<Op>): Watermark {
    if ops == [] then ABOVE_HIGH_WATERMARK
    else if ops[|ops| - 1].Update? then ops[|ops| - 1].report.poolState
    else PoolAfter(ops[..|ops| - 1])
  }

  /** What is recorded of a loader is what it has reported. */
  ghost predicate Tells(s: LoaderState, r: Report, low: int, high: int) {
    && s.failed == r.failed && s.loading == r.loading && s.nextLoadPositionUs == r.nextLoadPositionUs
    && s.bufferState ==
         if r.nextLoadPositionUs == -1 || AheadUs(r) > high then ABOVE_HIGH_WATERMARK
         else if AheadUs(r) < low then BELOW_LOW_WATERMARK
         else BETWEEN_WATERMARKS
  }

  /** A loader that has not reported anything yet. */
  predicate Silent(s: LoaderState) {
    !s.failed && !s.loading && s.nextLoadPositionUs == -1 && s.bufferState == ABOVE_HIGH_WATERMARK
  }

  /** The control's records are the last reports of the loaders registered. */
  ghost predicate Records(c: Control, ops: seq<Op>, low: int, high: int) {
    && c.lowWatermarkUs == low && c.highWatermarkUs == high && c.poolState == PoolAfter(ops)
    && (forall i :: Stands(ops, i) ==>
          ops[i].loader in c.states && Tells(c.states[ops[i].loader], ops[i].report, low, high))
    && (forall l :: l in c.states && !Silent(c.states[l]) ==> exists i :: Stands(ops, i) && ops[i].loader == l)
  }

  lemma StandsAfter(ops: seq<Op>, op: Op)
    ensures forall i :: Stands(ops + [op], i) <==>
              (i == |ops| && op.Update?) || (Stands(ops, i) && op.loader != ops[i].loader)
  {
    var all := ops + [op];
    forall i: int
      ensures Stands(all, i) <==> (i == |ops| && op.Update?) || (Stands(ops, i) && op.loader != ops[i].loader)
    {
      if 0 <= i < |ops| {
        assert all[i] == ops[i] && all[|ops|] == op;
        assert forall j :: i < j < |ops| ==> all[j] == ops[j];
      }
    }
  }

  lemma StepRecords(c: Control, ops: seq<Op>, op: Op, c': Control, low: int, high: int)
    requires Records(c, ops, low, high) && Legal(c, op) && Step(c, op, c')
    ensures Records(c', ops + [op], low, high)
  {
    StandsAfter(ops, op);
    var all := ops + [op];
    assert all[..|ops|] == ops;
    forall l | l in c'.states && !Silent(c'.states[l]) ensures exists i :: Stands(all, i) && all[i].loader == l {
      if op.loader == l {
        assert Stands(all, |ops|);
      } else {
        var i :| Stands(ops, i) && ops[i].loader == l;
        assert Stands(all, i) && all[i].loader == l;
      }
    }
    forall i | Stands(all, i)
      ensures all[i].loader in c'.states && Tells(c'.states[all[i].loader], all[i].report, low, high)
    {
      if i < |ops| {
        assert Stands(ops, i);
      }
    }
  }

  /** Whatever the run: what is recorded of each loader is what it last reported since it was registered. */
  lemma {:induction false} RunRecords(trace: seq<Control>, ops: seq<Op>, low: int, high: int)
    requires IsRun(trace, ops) && trace[0] == Initial(low, high)
    ensures Records(trace[|ops|], ops, low, high)
  {
    if ops != [] {
      var n := |ops| - 1;
      var before := trace[..|ops|];
      assert IsRun(before, ops[..n]) by {
        forall i | 0 <= i < n
          ensures Legal(before[i], ops[..n][i]) && Step(before[i], ops[..n][i], before[i + 1])
        {
          assert Legal(trace[i], ops[i]) && Step(trace[i], ops[i], trace[i + 1]);
        }
      }
      RunRecords(before, ops[..n], low, high);
      StepRecords(trace[n], ops[..n], ops[n], trace[|ops|], low, high);
      assert ops[..n] + [ops[n]] == ops;
    }
  }

  /** What the records say of the loaders together is what their reports say. */
  lemma RecordsDecide(c: Control, ops: seq<Op>, low: int, high: int)
    requires WellKeyed(c) && Records(c, ops, low, high)
    ensures AnyFailed(c) <==> SomeFailed(ops)
    ensures AnyLoading(c) <==> SomeLoading(ops)
    ensures AllFinished(c) <==> !SomeUnfinished(ops)
    ensures AnyAt(c, BELOW_LOW_WATERMARK) <==>
              PoolAfter(ops) == BELOW_LOW_WATERMARK || SomeBelow(ops, low, high)
    ensures AnyAt(c, BETWEEN_WATERMARKS) <==>
              PoolAfter(ops) == BETWEEN_WATERMARKS || SomeBetween(ops, low, high)
  {
    forall l | l in c.loaders
      ensures Silent(c.states[l])
              || exists i :: Stands(ops, i) && ops[i].loader == l && Tells(c.states[l], ops[i].report, low, high)
    {
      assert l in c.states;
    }
    forall i | Stands(ops, i)
      ensures ops[i].loader in c.loaders && Tells(c.states[ops[i].loader], ops[i].report, low, high)
    {
    }
  }

  /** Recomputing changes nothing that filling is decided by. */
  lemma ShouldFillIsLasting(b: Control, c: Control)
    requires WellKeyed(b) && Recomputes(b, c)
    ensures WellKeyed(c)
    ensures AnyFailed(c) == AnyFailed(b) && AnyLoading(c) == AnyLoading(b) && AllFinished(c) == AllFinished(b)
    ensures forall w: Watermark :: AnyAt(c, w) == AnyAt(b, w)
  {
  }

  /** After every call the control fills, and holds the priority, as the states recorded then call for. */
  lemma StatesDecide(was: Control, op: Op, now: Control)
    requires Inv(was) && Legal(was, op) && Step(was, op, now) && Inv(now)
    ensures now.filling <==>
              && !AllFinished(now) && !AnyFailed(now)
              && (AnyAt(now, BELOW_LOW_WATERMARK) || (was.filling && AnyAt(now, BETWEEN_WATERMARKS)))
    ensures now.prioritySet <==> now.filling || (was.prioritySet && AnyLoading(now))
  {
    match op
    case Register(l, contribution) =>
    case Unregister(l) =>
      ShouldFillIsLasting(Removed(was, l), now);
    case Update(l, r) =>
      if Recorded(was, l, r) != was {
        ShouldFillIsLasting(Recorded(was, l, r), now);
      }
  }

  /** The control fills exactly when somebody has something to load, nobody's load has failed, and somebody, or the
      pool, is short of the low watermark; in between the watermarks it goes on as before. It holds the network's
      priority exactly while it fills and, once held, for as long as somebody is still loading. */
  lemma ReportsDecide(trace: seq<Control>, ops: seq<Op>, low: int, high: int)
    requires IsRun(trace, ops) && trace[0] == Initial(low, high) && ops != []
    ensures var was, now := trace[|ops| - 1], trace[|ops|];
            && (now.filling <==>
                  && SomeUnfinished(ops) && !SomeFailed(ops)
                  && (|| PoolAfter(ops) == BELOW_LOW_WATERMARK || SomeBelow(ops, low, high)
                      || (was.filling && (PoolAfter(ops) == BETWEEN_WATERMARKS || SomeBetween(ops, low, high)))))
            && (now.prioritySet <==> now.filling || (was.prioritySet && SomeLoading(ops)))
  {
    var n := |ops|;
    var was, now, op := trace[n - 1], trace[n], ops[n - 1];
    RunKeepsInv(trace, ops, low, high, n - 1);
    RunKeepsInv(trace, ops, low, high, n);
    RunRecords(trace, ops, low, high);
    RecordsDecide(now, ops, low, high);
    assert Legal(was, op) && Step(was, op, now);
    StatesDecide(was, op, now);
  }

  /** An update is answered with yes exactly when the pool is short of its target and nobody who has something to load
      has last reported a position further back; but for positions below -1, reported to a control that is not
      filling. */
  lemma GrantsFollowReports(trace: seq<Control>, ops: seq<Op>, low: int, high: int)
    requires IsRun(trace, ops) && trace[0] == Initial(low, high) && ops != [] && ops[|ops| - 1].Update?
    ensures var now, r := trace[|ops|], ops[|ops| - 1].report;
            Answer(ops[|ops| - 1], now) <==>
              && r.allocatedSize < now.targetBufferSize && r.nextLoadPositionUs != -1
              && if now.filling then
                   forall i :: Stands(ops, i) && ops[i].report.nextLoadPositionUs != -1 ==>
                     r.nextLoadPositionUs <= ops[i].report.nextLoadPositionUs
                 else r.nextLoadPositionUs < -1
  {
    var n := |ops|;
    var was, now, op := trace[n - 1], trace[n], ops[n - 1];
    RunKeepsInv(trace, ops, low, high, n - 1);
    RunRecords(trace, ops, low, high);
    assert Legal(was, op) && Step(was, op, now);
    GrantedExactlyWhenFurthestBehind(was, op.loader, op.report, now);
    forall l | l in now.loaders && !Finished(now, l)
      ensures exists i :: Stands(ops, i) && ops[i].report.nextLoadPositionUs == now.states[l].nextLoadPositionUs != -1
    {
      var i :| Stands(ops, i) && ops[i].loader == l;
    }
    forall i | Stands(ops, i) && ops[i].report.nextLoadPositionUs != -1
      ensures ops[i].loader in now.loaders && !Finished(now, ops[i].loader)
              && now.states[ops[i].loader].nextLoadPositionUs == ops[i].report.nextLoadPositionUs
    {
      assert ops[i].loader in now.states;
    }
  }

  // ---------------------------------------------------------------- the control itself

  /** DefaultLoadControl: its fields, updated in place, with the loops that recompute them. */
  class DefaultLoadControl {
    const lowWatermarkUs: int
    const highWatermarkUs: int
    var loaders: seq<Loader>
    var loaderStates: map<Loader, LoaderState>
    var targetBufferSize: int
    var maxLoadStartPositionUs: int
    var bufferPoolState: Watermark
    var fillingBuffers: bool
    var streamingPrioritySet: bool
    ghost var lockCalls: seq<bool>
    ghost var notified: seq<bool>

    ghost function State(): Control
      reads this
    {
      Control(lowWatermarkUs, highWatermarkUs, loaders, loaderStates, targetBufferSize, maxLoadStartPositionUs,
              bufferPoolState, fillingBuffers, streamingPrioritySet, lockCalls, notified)
    }

    constructor (lowWatermarkMs: int, highWatermarkMs: int)
      ensures State() == Initial(lowWatermarkMs * 1000, highWatermarkMs * 1000)
      ensures Inv(State())
    {
      lowWatermarkUs, highWatermarkUs := lowWatermarkMs * 1000, highWatermarkMs * 1000;
      loaders, loaderStates, targetBufferSize, maxLoadStartPositionUs := [], map[], 0, 0;
      bufferPoolState, fillingBuffers, streamingPrioritySet := ABOVE_HIGH_WATERMARK, false, false;
      lockCalls, notified := [], [];
      new;
      assert Recomputes(State(), State().(maxLoadStartPositionUs := -1));
    }

    method RegisterLoader(loader: Loader, bufferSizeContribution: int)
      requires WellKeyed(State()) && loader !in loaderStates
      modifies this
      ensures Step(old(State()), Register(loader, bufferSizeContribution), State())
      ensures loaders == old(loaders) + [loader] && targetBufferSize == old(targetBufferSize) + bufferSizeContribution
      ensures loader in loaderStates && loaderStates[loader].bufferSizeContribution == bufferSizeContribution
    {
      loaders := loaders + [loader];
      var state := LoaderState(bufferSizeContribution, ABOVE_HIGH_WATERMARK, false, false, -1);
      loaderStates := loaderStates[loader := state];
      targetBufferSize := targetBufferSize + bufferSizeContribution;
    }

    method UnregisterLoader(loader: Loader)
      requires WellKeyed(State()) && loader in loaderStates
      modifies this
      ensures Step(old(State()), Unregister(loader), State())
      ensures loader !in loaderStates
      ensures targetBufferSize == old(targetBufferSize) - old(loaderStates)[loader].bufferSizeContribution
    {
      loaders := Without(loaders, loader);
      var state := loaderStates[loader];
      loaderStates := loaderStates - {loader};
      targetBufferSize := targetBufferSize - state.bufferSizeContribution;
      assert State() == Removed(old(State()), loader);
      UpdateControlState();
    }

    /** The first part of update: the loader's state and the pool's are brought up to date. */
    method Record(loader: Loader, r: Report) returns (changed: bool)
      requires WellKeyed(State()) && loader in loaderStates
      modifies `loaderStates, `bufferPoolState
      ensures State() == Recorded(old(State()), loader, r) && (changed <==> State() != old(State()))
      ensures loader in loaderStates && bufferPoolState == r.poolState
      ensures var s := loaderStates[loader];
              && s.failed == r.failed && s.loading == r.loading && s.nextLoadPositionUs == r.nextLoadPositionUs
              && s.bufferSizeContribution == old(loaderStates)[loader].bufferSizeContribution
    {
      var loaderBufferState := GetLoaderBufferState(r.playbackPositionUs, r.nextLoadPositionUs);
      var s := loaderStates[loader];
      var loaderStateChanged := s.bufferState != loaderBufferState || s.nextLoadPositionUs != r.nextLoadPositionUs
                                || s.loading != r.loading || s.failed != r.failed;
      if loaderStateChanged {
        loaderStates := loaderStates[loader := s.(bufferState := loaderBufferState, loading := r.loading,
                                                  failed := r.failed, nextLoadPositionUs := r.nextLoadPositionUs)];
      }
      var bufferPoolStateChanged := bufferPoolState != r.poolState;
      if bufferPoolStateChanged {
        bufferPoolState := r.poolState;
      }
      changed := loaderStateChanged || bufferPoolStateChanged;
      ghost var before := old(State());
      ghost var recorded := Recorded(before, loader, r);
      assert loaderStates == recorded.states;
      assert !changed ==> recorded == before;
      assert changed ==> recorded.states[loader] != before.states[loader] || recorded.poolState != before.poolState;
    }

    method UpdateLoader(loader: Loader, r: Report) returns (granted: bool)
      requires WellKeyed(State()) && loader in loaderStates
      modifies this
      ensures Step(old(State()), Update(loader, r), State())
      ensures granted == Answer(Update(loader, r), State())
      ensures targetBufferSize == old(targetBufferSize)
      ensures loader in loaderStates && bufferPoolState == r.poolState
      ensures var s := loaderStates[loader];
              && s.failed == r.failed && s.loading == r.loading && s.nextLoadPositionUs == r.nextLoadPositionUs
              && s.bufferSizeContribution == old(loaderStates)[loader].bufferSizeContribution
    {
      var changed := Record(loader, r);
      if changed {
        UpdateControlState();
      }
      return r.allocatedSize < targetBufferSize && r.nextLoadPositionUs != -1
        && r.nextLoadPositionUs <= maxLoadStartPositionUs;
    }

    method GetLoaderBufferState(playbackPositionUs: int, nextLoadPositionUs: int) returns (w: Watermark)
      ensures forall r: Report :: r.playbackPositionUs == playbackPositionUs
                && r.nextLoadPositionUs == nextLoadPositionUs
                ==> w == BufferState(State(), r)
    {
      if nextLoadPositionUs == -1 {
        return ABOVE_HIGH_WATERMARK;
      }
      var timeUntilNextLoadPosition := nextLoadPositionUs - playbackPositionUs;
      return if timeUntilNextLoadPosition > highWatermarkUs then ABOVE_HIGH_WATERMARK
             else if timeUntilNextLoadPosition < lowWatermarkUs then BELOW_LOW_WATERMARK
             else BETWEEN_WATERMARKS;
    }

    /** The first loop of updateControlState. */
    method Survey() returns (loading: bool, failed: bool, finished: bool, highestState: Watermark)
      requires WellKeyed(State())
      ensures loading <==> AnyLoading(State())
      ensures failed <==> AnyFailed(State())
      ensures finished <==> AllFinished(State())
      ensures AnyAt(State(), highestState)
      ensures forall w: Watermark :: highestState < w ==> !AnyAt(State(), w)
    {
      loading, failed, finished, highestState := false, false, true, bufferPoolState;
      for i := 0 to |loaders|
        invariant loading <==> exists j :: 0 <= j < i && loaderStates[loaders[j]].loading
        invariant failed <==> exists j :: 0 <= j < i && loaderStates[loaders[j]].failed
        invariant finished <==> forall j :: 0 <= j < i ==> loaderStates[loaders[j]].nextLoadPositionUs == -1
        invariant bufferPoolState <= highestState
        invariant forall j :: 0 <= j < i ==> loaderStates[loaders[j]].bufferState <= highestState
        invariant highestState == bufferPoolState
                  || exists j :: 0 <= j < i && loaderStates[loaders[j]].bufferState == highestState
      {
        var s := loaderStates[loaders[i]];
        loading := loading || s.loading;
        failed := failed || s.failed;
        finished := finished && s.nextLoadPositionUs == -1;
        highestState := if highestState < s.bufferState then s.bufferState else highestState;
      }
      forall l | l in loaders
        ensures finished ==> Finished(State(), l)
        ensures loaderStates[l].bufferState <= highestState
      {
        var j :| 0 <= j < |loaders| && loaders[j] == l;
      }
      if !finished {
        var j :| 0 <= j < |loaders| && loaderStates[loaders[j]].nextLoadPositionUs != -1;
        assert !Finished(State(), loaders[j]);
      }
    }

    /** The second loop of updateControlState. */
    method FindMaxLoadStart()
      requires WellKeyed(State()) && fillingBuffers && maxLoadStartPositionUs == -1
      modifies `maxLoadStartPositionUs
      ensures IsEarliest(loaders, loaderStates, maxLoadStartPositionUs)
    {
      for i := 0 to |loaders|
        invariant IsEarliest(loaders[..i], loaderStates, maxLoadStartPositionUs)
      {
        var loaderTime := loaderStates[loaders[i]].nextLoadPositionUs;
        assert loaders[..i + 1] == loaders[..i] + [loaders[i]];
        if loaderTime != -1 && (maxLoadStartPositionUs == -1 || loaderTime < maxLoadStartPositionUs) {
          maxLoadStartPositionUs := loaderTime;
        }
      }
      assert loaders[..|loaders|] == loaders;
    }

    method UpdateControlState()
      requires WellKeyed(State())
      modifies this
      ensures Recomputes(old(State()), State())
      ensures lockCalls == old(lockCalls) + if streamingPrioritySet == old(streamingPrioritySet) then []
                                            else [streamingPrioritySet]
    {
      var loading, failed, finished, highestState := Survey();
      assert loaders == [] ==> finished;
      fillingBuffers := loaders != [] && !finished && !failed
                        && (highestState == BELOW_LOW_WATERMARK
                          || (highestState == BETWEEN_WATERMARKS && fillingBuffers));
      assert fillingBuffers == ShouldFill(old(State()));
      if fillingBuffers && !streamingPrioritySet {
        lockCalls := lockCalls + [true];
        streamingPrioritySet := true;
        notified := notified + [true];
      } else if !fillingBuffers && streamingPrioritySet && !loading {
        lockCalls := lockCalls + [false];
        streamingPrioritySet := false;
        notified := notified + [false];
      }
      maxLoadStartPositionUs := -1;
      if fillingBuffers {
        FindMaxLoadStart();
      }
    }
  }
}
