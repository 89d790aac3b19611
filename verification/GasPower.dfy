/** How much gas the events of a validator may use (eventcheck/gaspowercheck/gas_power_check.go). */
module GasPowers {
  import opened Collections

  const UINT64: nat := 0x1_0000_0000_0000_0000
  const SECOND: nat := 1_000_000_000
  const CONFIGS: nat := 2

  /** 64-bit arithmetic. */
  function Wrap(x: nat): (r: nat)
    ensures r < UINT64 && (x < UINT64 ==> r == x)
  {
    x % UINT64
  }

  datatype Config = Config(idx: nat, allocPerSec: nat, maxAllocPeriod: nat, minEnsuredAlloc: nat,
                           startupAllocPeriod: nat, minStartupGas: nat)

  datatype Rates = Rates(perSec: nat, max: nat, startup: nat)

  function Larger(a: nat, b: nat): nat {
    if a < b then b else a
  }

  /** The share of a stake in the allocation, with floors. */
  function PerSec(stake: nat, total: nat, c: Config): (r: Rates)
    requires stake <= total
    ensures stake > 0 ==> r.max >= c.minEnsuredAlloc && r.startup >= c.minStartupGas
  {
    if stake == 0 then Rates(0, 0, 0)
    else
      var perSec := Wrap(c.allocPerSec * stake / total);
      Rates(perSec, Larger(Wrap(perSec * (c.maxAllocPeriod / SECOND)), c.minEnsuredAlloc),
            Larger(Wrap(perSec * (c.startupAllocPeriod / SECOND)), c.minStartupGas))
  }

  /** What is allocated over an interval; nothing if it runs backwards. */
  function Allocated(rates: Rates, prevTime: nat, time: nat): nat {
    if prevTime > time then 0 else (time - prevTime) * rates.perSec / SECOND
  }

  /** What an event may use, starting from what its predecessor left. */
  function Available(rates: Rates, first: bool, prevTime: nat, prevLeft: nat, time: nat): (r: nat)
    ensures r <= rates.max
  {
    var left := if first then Larger(prevLeft, rates.startup) else prevLeft;
    var power := Wrap(Wrap(Allocated(rates, prevTime, time)) + left);
    if power > rates.max then rates.max else power
  }

  /** The rates in numbers: the floor of the stake's share of the allocation, and the gas of the whole seconds of each period
      at that rate modulo 64 bits, but at least the ensured amounts. Without a stake there is nothing. */
  lemma PerSecIs(stake: nat, total: nat, c: Config)
    requires stake <= total && c.allocPerSec < 0x1_0000_0000_0000_0000
    ensures var r := PerSec(stake, total, c);
      && (stake == 0 ==> r.perSec == 0 && r.max == 0 && r.startup == 0)
      && (stake > 0 ==>
            && r.perSec * total <= c.allocPerSec * stake < r.perSec * total + total
            && LargerIs(r.max, r.perSec * (c.maxAllocPeriod / 1_000_000_000) % 0x1_0000_0000_0000_0000, c.minEnsuredAlloc)
            && LargerIs(r.startup, r.perSec * (c.startupAllocPeriod / 1_000_000_000) % 0x1_0000_0000_0000_0000,
                 c.minStartupGas))
  {
    if stake > 0 {
      FloorIs(c.allocPerSec * stake, total);
      ShareAtMost(c.allocPerSec, stake, total);
    }
  }

  /** The larger of two numbers. */
  predicate LargerIs(r: nat, a: nat, b: nat) {
    r >= a && r >= b && (r == a || r == b)
  }

  lemma FloorIs(a: nat, b: nat)
    requires b > 0
    ensures a / b * b <= a < a / b * b + b
  {
    assert a == b * (a / b) + a % b;
  }

  lemma ShareAtMost(a: nat, stake: nat, total: nat)
    requires 0 < stake <= total
    ensures a * stake / total <= a
  {
    FloorIs(a * stake, total);
    assert a * stake <= a * total;
  }

  /** What is available in numbers: what was left, for a first event at least the startup gas, and the floor of the gas of
      the interval, both modulo 64 bits, but at most the maximum. */
  lemma AvailableIs(rates: Rates, first: bool, prevTime: nat, prevLeft: nat, time: nat) returns (left: nat, gas: nat)
    ensures LargerIs(left, prevLeft, if first then rates.startup else 0)
    ensures prevTime <= time ==> 1_000_000_000 * gas <= (time - prevTime) * rates.perSec < 1_000_000_000 * gas + 1_000_000_000
    ensures prevTime > time ==> gas == 0
    ensures var r := Available(rates, first, prevTime, prevLeft, time);
      var power := (gas % 0x1_0000_0000_0000_0000 + left) % 0x1_0000_0000_0000_0000;
      r <= power && r <= rates.max && (r == power || r == rates.max)
  {
    left := if first && prevLeft < rates.startup then rates.startup else prevLeft;
    gas := Allocated(rates, prevTime, time);
    if prevTime <= time {
      FloorIs((time - prevTime) * rates.perSec, SECOND);
    }
  }

  // ---------- floors ----------

  lemma DivSum(a: nat, b: nat, k: nat)
    requires k > 0
    ensures a / k + b / k <= (a + b) / k <= a / k + b / k + 1
  {
    var x, y, z := a / k, b / k, (a + b) / k;
    assert a == k * x + a % k && b == k * y + b % k && a + b == k * z + (a + b) % k;
    Distribute(k, x, y);
    QuotientWithin(k, x + y, z, a % k + b % k, (a + b) % k);
  }

  lemma QuotientWithin(k: int, u: int, z: int, s: int, t: int)
    requires k > 0 && k * u + s == k * z + t && 0 <= s <= 2 * k - 2 && 0 <= t < k
    ensures u <= z <= u + 1
  {
    if z < u { MulLess(k, z + 1, u); }
    if z > u + 1 { MulLess(k, u + 2, z); }
  }

  lemma MulLess(k: int, a: int, b: int)
    requires a <= b && k >= 0
    ensures k * a <= k * b
  {
  }

  lemma DivLess(a: nat, b: nat, k: nat)
    requires k > 0 && a <= b
    ensures a / k <= b / k
  {
    DivSum(a, b - a, k);
  }

  // ---------- all validators together ----------

  function Total(stakes: seq<nat>): nat {
    if stakes == [] then 0 else Total(stakes[..|stakes| - 1]) + stakes[|stakes| - 1]
  }

  function RateSum(stakes: seq<nat>, total: nat, c: Config): nat
    requires Total(stakes) <= total
  {
    if stakes == [] then 0
    else RateSum(stakes[..|stakes| - 1], total, c) + PerSec(stakes[|stakes| - 1], total, c).perSec
  }

  lemma {:induction false} RateSumShare(stakes: seq<nat>, total: nat, c: Config)
    requires Total(stakes) <= total && total > 0 && c.allocPerSec < UINT64
    ensures RateSum(stakes, total, c) <= c.allocPerSec * Total(stakes) / total
  {
    hide PerSec;
    if stakes != [] {
      var k := |stakes| - 1;
      RateSumShare(stakes[..k], total, c);
      RateOne(stakes[k], total, c);
      ShareSum(c.allocPerSec, Total(stakes[..k]), stakes[k], total);
    } else {
      Share(c.allocPerSec, 0, total);
    }
  }

  lemma ShareSum(alloc: nat, a: nat, b: nat, total: nat)
    requires total > 0
    ensures alloc * a / total + alloc * b / total <= alloc * (a + b) / total
  {
    Distribute(alloc, a, b);
    DivSum(alloc * a, alloc * b, total);
  }

  lemma RateOne(stake: nat, total: nat, c: Config)
    requires stake <= total && total > 0 && c.allocPerSec < UINT64
    ensures PerSec(stake, total, c).perSec == c.allocPerSec * stake / total <= c.allocPerSec
  {
    Share(c.allocPerSec, stake, total);
  }

  lemma Distribute(k: int, a: int, b: int)
    ensures k * a + k * b == k * (a + b)
  {
  }

  lemma Share(alloc: nat, stake: nat, total: nat)
    requires stake <= total && total > 0
    ensures 0 <= alloc * stake / total <= alloc && (stake == 0 ==> alloc * stake / total == 0)
  {
    MulLess(alloc, stake, total);
    DivLess(alloc * stake, alloc * total, total);
    assert alloc * total / total == alloc;
  }

  /** The validators together get no more per second than is allocated. */
  lemma RatesWithinAllocation(stakes: seq<nat>, total: nat, c: Config)
    requires Total(stakes) <= total && total > 0 && c.allocPerSec < UINT64
    ensures RateSum(stakes, total, c) <= c.allocPerSec
  {
    RateSumShare(stakes, total, c);
    Share(c.allocPerSec, Total(stakes), total);
  }

  // ---------- a chain of events ----------

  datatype Step = Step(time: nat, used: nat, left: nat)

  /** What an event may use is what it uses and leaves, and their 64-bit sum does not wrap. */
  predicate StepOk(rates: Rates, prev: Step, s: Step) {
    && prev.time <= s.time && s.left + s.used < UINT64
    && Wrap(s.left + s.used) == Available(rates, false, prev.time, prev.left, s.time)
  }

  predicate ChainOk(rates: Rates, start: Step, chain: seq<Step>)
    decreases |chain|
  {
    || chain == []
    || (ChainOk(rates, start, chain[..|chain| - 1])
        && StepOk(rates, End(start, chain[..|chain| - 1]), chain[|chain| - 1]))
  }

  function End(start: Step, chain: seq<Step>): Step {
    if chain == [] then start else chain[|chain| - 1]
  }

  function Used(chain: seq<Step>): nat {
    if chain == [] then 0 else Used(chain[..|chain| - 1]) + chain[|chain| - 1].used
  }

  /** However an interval is split into events, they use no more than what was left before it and what is allocated
      over it. */
  lemma {:induction false} ChainBound(rates: Rates, start: Step, chain: seq<Step>)
    requires ChainOk(rates, start, chain)
    ensures End(start, chain).time >= start.time
    ensures Used(chain) + End(start, chain).left
      <= start.left + (End(start, chain).time - start.time) * rates.perSec / SECOND
    decreases |chain|
  {
    if chain == [] {
      Nothing(rates.perSec);
    } else {
      var k := |chain| - 1;
      var mid, s := End(start, chain[..k]), chain[k];
      ChainBound(rates, start, chain[..k]);
      SplitTime(mid.time - start.time, s.time - mid.time, rates.perSec);
    }
  }

  lemma Nothing(perSec: nat)
    ensures 0 * perSec / SECOND == 0
  {
  }

  lemma SplitTime(a: nat, b: nat, perSec: nat)
    ensures a * perSec / SECOND + b * perSec / SECOND <= (a + b) * perSec / SECOND
      <= a * perSec / SECOND + b * perSec / SECOND + 1
  {
    assert (a + b) * perSec == a * perSec + b * perSec;
    DivSum(a * perSec, b * perSec, SECOND);
  }

  /** Looking in between gains nothing, and loses at most one unit. */
  lemma SplitGainsNothing(rates: Rates, t0: nat, left: nat, t1: nat, t2: nat)
    requires t0 <= t1 <= t2 && Allocated(rates, t0, t2) + left < UINT64
    ensures var mid := Available(rates, false, t0, left, t1);
      Available(rates, false, t1, mid, t2) <= Available(rates, false, t0, left, t2)
        <= Available(rates, false, t1, mid, t2) + 1
  {
    SplitTime(t1 - t0, t2 - t1, rates.perSec);
    assert t1 - t0 + (t2 - t1) == t2 - t0;
  }

  // ---------- the check of an event ----------

  datatype Event = Event(epoch: nat, creator: nat, time: nat, used: nat, left: seq<nat>, hasSelfParent: bool)

  /** The validator's last event of the epoch before, if any, and what is refunded for it. */
  datatype ValidatorState = ValidatorState(prevTime: Option<nat>, prevLeft: seq<nat>, refund: nat)

  /** `stranger` is the state that is read for a creator outside the set. */
  datatype Context = Context(epoch: nat, configs: seq<Config>, epochStart: nat, stakes: map<nat, nat>, total: nat,
                             states: map<nat, ValidatorState>, stranger: ValidatorState)

  /** Each configuration stands at its own index. */
  predicate ContextOk(ctx: Context) {
    && |ctx.configs| == CONFIGS && (forall i :: 0 <= i < CONFIGS ==> ctx.configs[i].idx == i)
    && ctx.stakes.Keys == ctx.states.Keys && (forall v :: v in ctx.stakes ==> ctx.stakes[v] <= ctx.total)
    && (forall v :: v in ctx.states ==> |ctx.states[v].prevLeft| == CONFIGS) && |ctx.stranger.prevLeft| == CONFIGS
  }

  /** Who is not a validator has no stake. */
  function StakeOf(ctx: Context, v: nat): (stake: nat)
    requires ContextOk(ctx)
    ensures stake <= ctx.total
  {
    if v in ctx.stakes then ctx.stakes[v] else 0
  }

  function StateOf(ctx: Context, v: nat): (st: ValidatorState)
    requires ContextOk(ctx)
    ensures |st.prevLeft| == CONFIGS
  {
    if v in ctx.states then ctx.states[v] else ctx.stranger
  }

  /** The gas power of an event under one of the configurations. */
  function GasPowerOf(ctx: Context, e: Event, selfParent: Event, i: nat): nat
    requires ContextOk(ctx) && i < CONFIGS && |selfParent.left| == CONFIGS
  {
    var rates := PerSec(StakeOf(ctx, e.creator), ctx.total, ctx.configs[i]);
    if e.hasSelfParent then Available(rates, false, selfParent.time, selfParent.left[i], e.time)
    else
      var st := StateOf(ctx, e.creator);
      if st.prevTime.Some? then Available(rates, true, st.prevTime.value, Wrap(st.prevLeft[i] + st.refund), e.time)
      else Available(rates, true, ctx.epochStart, Wrap(st.refund), e.time)
  }

  /** Where a validator's gas power starts from: from its self-parent; or, for its first event of the epoch, from what its
      last event of the epoch before left and the refund, or from the refund alone and the start of the epoch. */
  lemma StartsFrom(ctx: Context, e: Event, selfParent: Event, i: nat)
    requires ContextOk(ctx) && i < 2 && |selfParent.left| == 2 && e.creator in ctx.stakes
    ensures var rates := PerSec(ctx.stakes[e.creator], ctx.total, ctx.configs[i]);
      var st := ctx.states[e.creator];
      GasPowerOf(ctx, e, selfParent, i) ==
        if e.hasSelfParent then Available(rates, false, selfParent.time, selfParent.left[i], e.time)
        else if st.prevTime.Some? then
          Available(rates, true, st.prevTime.value, (st.prevLeft[i] + st.refund) % 0x1_0000_0000_0000_0000, e.time)
        else Available(rates, true, ctx.epochStart, st.refund % 0x1_0000_0000_0000_0000, e.time)
  {
  }

  /** Who is not a validator has no gas power, whatever was left before. */
  lemma StrangersHaveNone(ctx: Context, e: Event, selfParent: Event, i: nat)
    requires ContextOk(ctx) && i < CONFIGS && |selfParent.left| == CONFIGS && e.creator !in ctx.stakes
    ensures GasPowerOf(ctx, e, selfParent, i) == 0
  {
  }

  /** The gas power of an event under all configurations; nothing for an event of another epoch. */
  method CalcGasPower(ctx: Context, e: Event, selfParent: Event) returns (power: Option<seq<nat>>)
    requires ContextOk(ctx) && |selfParent.left| == CONFIGS
    ensures power.None? <==> ctx.epoch != e.epoch
    ensures power.Some? ==> |power.value| == 2
    ensures power.Some? ==> forall i: nat :: i < CONFIGS ==> power.value[i] == GasPowerOf(ctx, e, selfParent, i)
  {
    hide GasPowerOf;
    if ctx.epoch != e.epoch {
      return None;
    }
    var res: seq<nat> := [];
    for i := 0 to CONFIGS
      invariant |res| == i && forall k :: 0 <= k < i ==> res[k] == GasPowerOf(ctx, e, selfParent, k)
    {
      var gas := CalcOne(ctx, e, selfParent, ctx.configs[i]);
      res := res + [gas];
    }
    power := Some(res);
  }

  /** The gas power of an event under one configuration. */
  method CalcOne(ctx: Context, e: Event, selfParent: Event, config: Config) returns (gas: nat)
    requires ContextOk(ctx) && |selfParent.left| == CONFIGS && config.idx < CONFIGS && config == ctx.configs[config.idx]
    ensures gas == GasPowerOf(ctx, e, selfParent, config.idx)
  {
    hide PerSec, Available;
    var prevLeft, prevTime;
    if e.hasSelfParent {
      prevLeft, prevTime := selfParent.left[config.idx], selfParent.time;
    } else {
      var st := StateOf(ctx, e.creator);
      if st.prevTime.Some? {
        prevLeft, prevTime := st.prevLeft[config.idx], st.prevTime.value;
      } else {
        prevLeft, prevTime := 0, ctx.epochStart;
      }
      prevLeft := Wrap(prevLeft + st.refund);
    }
    var rates := PerSec(StakeOf(ctx, e.creator), ctx.total, config);
    gas := Available(rates, !e.hasSelfParent, prevTime, prevLeft, e.time);
  }

  datatype Verdict = Valid | NotRelevant | WrongGasPowerLeft

  /** An event is valid if under each configuration it uses and leaves just its gas power. */
  method Validate(ctx: Context, e: Event, selfParent: Event) returns (v: Verdict)
    requires ContextOk(ctx) && |selfParent.left| == CONFIGS && |e.left| == CONFIGS
    ensures v == NotRelevant <==> ctx.epoch != e.epoch
    ensures v == Valid <==> ctx.epoch == e.epoch && Balanced(ctx, e, selfParent)
  {
    var power := CalcGasPower(ctx, e, selfParent);
    if power.None? {
      return NotRelevant;
    }
    for i := 0 to CONFIGS
      invariant forall k :: 0 <= k < i ==> Wrap(e.left[k] + e.used) == GasPowerOf(ctx, e, selfParent, k)
    {
      if Wrap(e.left[i] + e.used) != power.value[i] {
        return WrongGasPowerLeft;
      }
    }
    v := Valid;
  }

  predicate Balanced(ctx: Context, e: Event, selfParent: Event)
    requires ContextOk(ctx) && |selfParent.left| == CONFIGS && |e.left| == CONFIGS
  {
    forall k :: 0 <= k < CONFIGS ==> Wrap(e.left[k] + e.used) == GasPowerOf(ctx, e, selfParent, k)
  }

  // ---------- a validator's events of an epoch ----------

  function StepOf(e: Event, i: nat): Step
    requires i < |e.left|
  {
    Step(e.time, e.used, e.left[i])
  }

  function StepsOf(es: seq<Event>, i: nat): (steps: seq<Step>)
    requires forall e :: e in es ==> i < |e.left|
    ensures |steps| == |es|
  {
    if es == [] then []
    else
      assert es == es[..|es| - 1] + [es[|es| - 1]];
      StepsOf(es[..|es| - 1], i) + [StepOf(es[|es| - 1], i)]
  }

  /** An event is a valid child of the one before; times do not run backwards, and what it uses and leaves does not wrap. */
  predicate ChildOk(ctx: Context, prev: Event, e: Event)
    requires ContextOk(ctx) && |prev.left| == CONFIGS && |e.left| == CONFIGS
  {
    && e.hasSelfParent && e.creator == prev.creator && Balanced(ctx, e, prev) && prev.time <= e.time
    && forall i: nat :: i < CONFIGS ==> e.left[i] + e.used < UINT64
  }

  /** Each event is a valid child of the one before. */
  predicate ValidRun(ctx: Context, start: Event, es: seq<Event>)
    requires ContextOk(ctx) && |start.left| == CONFIGS
    ensures ValidRun(ctx, start, es) ==> forall e :: e in es ==> |e.left| == CONFIGS && e.creator == start.creator
    decreases |es|
  {
    es == [] ||
    (var k := |es| - 1;
     assert es == es[..k] + [es[k]];
     && ValidRun(ctx, start, es[..k]) && es[k].creator == start.creator && |es[k].left| == CONFIGS
     && ChildOk(ctx, LastOf(start, es[..k]), es[k]))
  }

  function LastOf(start: Event, es: seq<Event>): Event {
    if es == [] then start else es[|es| - 1]
  }

  lemma ChildIsStep(ctx: Context, prev: Event, e: Event, i: nat)
    requires ContextOk(ctx) && |prev.left| == CONFIGS && |e.left| == CONFIGS && i < CONFIGS
    requires ChildOk(ctx, prev, e)
    ensures StepOk(PerSec(StakeOf(ctx, e.creator), ctx.total, ctx.configs[i]), StepOf(prev, i), StepOf(e, i))
  {
    hide PerSec, Allocated, Available;
  }

  lemma {:induction false} RunIsChain(ctx: Context, start: Event, es: seq<Event>, i: nat)
    requires ContextOk(ctx) && |start.left| == CONFIGS && i < CONFIGS
    requires ValidRun(ctx, start, es)
    ensures ChainOk(PerSec(StakeOf(ctx, start.creator), ctx.total, ctx.configs[i]), StepOf(start, i), StepsOf(es, i))
    ensures End(StepOf(start, i), StepsOf(es, i)) == StepOf(LastOf(start, es), i)
    decreases |es|
  {
    hide Balanced, PerSec, Allocated, Available, ContextOk;
    if es != [] {
      var k := |es| - 1;
      RunIsChain(ctx, start, es[..k], i);
      assert es == es[..k] + [es[k]];
      ChildIsStep(ctx, LastOf(start, es[..k]), es[k], i);
      assert StepsOf(es, i)[..k] == StepsOf(es[..k], i);
    }
  }

  /** What a validator's events use along a run is bounded by what was left before it and what its share allocates. */
  lemma RunBound(ctx: Context, start: Event, es: seq<Event>, i: nat)
    requires ContextOk(ctx) && |start.left| == CONFIGS && i < CONFIGS
    requires ValidRun(ctx, start, es)
    ensures var last := LastOf(start, es);
      && last.time >= start.time
      && Used(StepsOf(es, i)) + last.left[i] <= start.left[i]
        + (last.time - start.time) * PerSec(StakeOf(ctx, start.creator), ctx.total, ctx.configs[i]).perSec / SECOND
  {
    RunIsChain(ctx, start, es, i);
    ChainBound(PerSec(StakeOf(ctx, start.creator), ctx.total, ctx.configs[i]), StepOf(start, i), StepsOf(es, i));
  }
}
