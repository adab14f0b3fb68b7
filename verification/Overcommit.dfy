/** Overcommit arithmetic: requests derived from limits, and the capacity a Fastlet advertises. */
module Overcommit {
  import opened Common

  /** The least integer at or above x: how a Quantity turns into whole millicores or bytes. */
  function Ceil(x: real): (r: int)
    ensures x <= r as real < x + 1.0
  {
    if x.Floor as real == x then x.Floor else x.Floor + 1
  }

  /** Quantities are exact decimals. */
  datatype Compute = Compute(cpu: real, memory: real)

  function MilliValue(q: real): int { Ceil(q * 1000.0) }

  function Value(q: real): int { Ceil(q) }

  function FromMilli(milli: int): real { milli as real / 1000.0 }

  datatype Mode = Unset | LegacySlot | ResourceAware | Unknown(name: string)

  datatype Policy = Invalid | Legacy | Aware

  datatype Profile = Profile(mode: Mode, cpu: Option<real>, memory: Option<real>, pids: int, ratio: Option<Compute>)

  function ResourceMode(p: Profile): (r: Policy)
    ensures r.Aware? <==> p.cpu.Some? && p.memory.Some? && p.mode.ResourceAware? && p.ratio.Some?
    ensures r.Legacy? <==> p.cpu.Some? && p.memory.Some? && (p.mode.Unset? || p.mode.LegacySlot?) && p.ratio.None?
  {
    if p.cpu.None? || p.memory.None? then Invalid
    else match p.mode
    case Unset => if p.ratio.Some? then Invalid else Legacy
    case LegacySlot => if p.ratio.Some? then Invalid else Legacy
    case ResourceAware => if p.ratio.None? then Invalid else Aware
    case Unknown(_) => Invalid
  }

  function LimitResources(p: Profile): Option<Compute> {
    if ResourceMode(p).Invalid? then None else Some(Compute(p.cpu.value, p.memory.value))
  }

  // ---------------------------------------------------------------- rounding

  /** value / ratio rounded up to a whole unit, by exact rational arithmetic. */
  function DivideRoundUp(value: int, ratio: real): Option<int> {
    if value <= 0 || ratio <= 0.0 then None
    else
      var quotient := value as real / ratio;
      var whole := quotient.Floor;
      var result := if quotient != whole as real then whole + 1 else whole;
      if result > MAX_INT64 || result <= 0 then None else Some(result)
  }

  lemma Scaled(a: real, b: real, c: real)
    requires c > 0.0
    ensures a <= b <==> a * c <= b * c
  {}

  lemma QuotientTimes(value: real, ratio: real)
    requires value > 0.0 && ratio > 0.0
    ensures value / ratio > 0.0 && value / ratio * ratio == value
  {}

  /** An integer is at or above value / ratio exactly when, times the ratio, it reaches the value. */
  lemma ReachesIff(value: int, ratio: real, r: int)
    requires value > 0 && ratio > 0.0
    ensures value as real / ratio <= r as real <==> value as real <= r as real * ratio
    ensures value as real / ratio > 0.0
  {
    QuotientTimes(value as real, ratio);
    Scaled(value as real / ratio, r as real, ratio);
  }

  /** r meets the commitment for a value at this ratio. */
  predicate Covers(r: int, ratio: real, value: int) { r as real * ratio >= value as real }

  /**
   * The result is the least integer that covers the value; it is refused exactly when
   * an argument is not positive or no int64 covers the value.
   */
  lemma DivideRoundUpIsLeast(value: int, ratio: real)
    ensures DivideRoundUp(value, ratio).Some? <==> value > 0 && ratio > 0.0 && Covers(MAX_INT64, ratio, value)
    ensures DivideRoundUp(value, ratio).Some? ==>
            var r := DivideRoundUp(value, ratio).value;
            && 0 < r <= MAX_INT64
            && forall k: int :: Covers(k, ratio, value) <==> r <= k
  {
    if value > 0 && ratio > 0.0 {
      ReachesIff(value, ratio, MAX_INT64);
      var r := Ceil(value as real / ratio);
      forall k: int ensures Covers(k, ratio, value) <==> r <= k {
        ReachesIff(value, ratio, k);
      }
    }
  }

  lemma OneCovers(value: int, ratio: real)
    requires value > 0 && ratio >= 1.0
    ensures Covers(value, ratio, value)
  {
    Scaled(1.0, ratio, value as real);
  }

  /** With a ratio of at least one the request never exceeds the limit it stands for. */
  lemma RequestWithinLimit(value: int, ratio: real)
    requires 0 < value && ratio >= 1.0
    ensures DivideRoundUp(value, ratio).Some? <==> Covers(MAX_INT64, ratio, value)
    ensures DivideRoundUp(value, ratio).Some? ==> 1 <= DivideRoundUp(value, ratio).value <= value
    ensures value <= MAX_INT64 ==> DivideRoundUp(value, ratio).Some?
  {
    OneCovers(value, ratio);
    ReachesIff(value, ratio, value);
    DivideRoundUpIsLeast(value, ratio);
  }

  // ---------------------------------------------------------------- limits and requests

  predicate WellSized(limits: Compute) {
    limits.cpu > 0.0 && limits.memory > 0.0 && MilliValue(limits.cpu) >= 10
  }

  /** Divided by the ratios, the limits are within what a request counts in int64 millicores and bytes. */
  predicate Committable(ratio: Compute, limits: Compute) {
    Covers(MAX_INT64, ratio.cpu, MilliValue(limits.cpu)) && Covers(MAX_INT64, ratio.memory, Value(limits.memory))
  }

  /** Limits in whole millicores and bytes. */
  function RoundedUp(limits: Compute): Compute {
    Compute(FromMilli(MilliValue(limits.cpu)), Value(limits.memory) as real)
  }

  /** The override, allowed only for ResourceAware pools, or the defaults; too small a boundary is refused. */
  function ResolveLimits(p: Profile, override: Option<Compute>): Option<Compute> {
    var defaults := LimitResources(p);
    if defaults.None? then None
    else if override.Some? && !ResourceMode(p).Aware? then None
    else
      var limits := if override.Some? then override.value else defaults.value;
      if limits.cpu <= 0.0 || limits.memory <= 0.0 then None
      else if MilliValue(limits.cpu) < 10 then None
      else Some(limits)
  }

  function DeriveRequests(p: Profile, limits: Compute): Option<Compute> {
    if !ResourceMode(p).Aware? then None
    else
      var cpu := DivideRoundUp(MilliValue(limits.cpu), p.ratio.value.cpu);
      var memory := DivideRoundUp(Value(limits.memory), p.ratio.value.memory);
      if cpu.None? || memory.None? then None
      else Some(Compute(FromMilli(cpu.value), memory.value as real))
  }

  function RequestResources(p: Profile): Option<Compute> {
    if !ResourceMode(p).Aware? then None else DeriveRequests(p, LimitResources(p).value)
  }

  predicate AtLeastOne(ratio: Compute) { ratio.cpu >= 1.0 && ratio.memory >= 1.0 }

  /** ValidateSandboxResourceProfile. */
  predicate ValidProfile(p: Profile) {
    && p.pids > 0
    && !ResourceMode(p).Invalid?
    && WellSized(LimitResources(p).value)
    && (ResourceMode(p).Aware? ==>
          && AtLeastOne(p.ratio.value)
          && RequestResources(p).Some?
          && RequestResources(p).value.cpu > 0.0 && RequestResources(p).value.memory > 0.0)
  }

  /**
   * Under ratios of at least one a well-sized limit has requests exactly when it is committable, as every limit
   * within int64 is; they are at least one unit and at most the limit rounded up.
   */
  lemma RequestsExist(p: Profile, limits: Compute)
    requires ResourceMode(p).Aware? && AtLeastOne(p.ratio.value) && WellSized(limits)
    ensures DeriveRequests(p, limits).Some? <==> Committable(p.ratio.value, limits)
    ensures MilliValue(limits.cpu) <= MAX_INT64 && Value(limits.memory) <= MAX_INT64 ==> DeriveRequests(p, limits).Some?
    ensures DeriveRequests(p, limits).Some? ==>
            var r := DeriveRequests(p, limits).value;
            && FromMilli(1) <= r.cpu <= FromMilli(MilliValue(limits.cpu))
            && 1.0 <= r.memory <= Value(limits.memory) as real
  {
    RequestWithinLimit(MilliValue(limits.cpu), p.ratio.value.cpu);
    RequestWithinLimit(Value(limits.memory), p.ratio.value.memory);
  }

  /**
   * In a valid pool the defaults always resolve, overrides exactly in ResourceAware pools and if well sized;
   * whatever resolves has requests exactly when it is committable, positive and at most the limit rounded up.
   */
  lemma ResolvedLimitsHaveRequests(p: Profile, override: Option<Compute>)
    requires ValidProfile(p)
    ensures ResolveLimits(p, None) == LimitResources(p)
    ensures override.Some? ==> (ResolveLimits(p, override).Some? <==> ResourceMode(p).Aware? && WellSized(override.value))
    ensures var limits := ResolveLimits(p, override);
            ResourceMode(p).Aware? && limits.Some? ==>
              var requests := DeriveRequests(p, limits.value);
              && (requests.Some? <==> Committable(p.ratio.value, limits.value))
              && (requests.Some? ==> Positive(requests.value) && Fits(requests.value, RoundedUp(limits.value)))
  {
    var limits := ResolveLimits(p, override);
    if ResourceMode(p).Aware? && limits.Some? {
      RequestsExist(p, limits.value);
    }
  }

  lemma MilliRoundTrip(milli: int)
    ensures MilliValue(FromMilli(milli)) == milli
  {
    assert FromMilli(milli) * 1000.0 == milli as real;
  }

  /** Derived requests are whole units, and the least that cover the limits at the ratios. */
  lemma RequestsAreLeast(p: Profile, limits: Compute, requests: Compute)
    requires DeriveRequests(p, limits) == Some(requests)
    ensures requests.cpu == FromMilli(MilliValue(requests.cpu)) && requests.memory == Value(requests.memory) as real
    ensures forall k: int :: Covers(k, p.ratio.value.cpu, MilliValue(limits.cpu)) <==> MilliValue(requests.cpu) <= k
    ensures forall k: int :: Covers(k, p.ratio.value.memory, Value(limits.memory)) <==> Value(requests.memory) <= k
  {
    var ratio := p.ratio.value;
    MilliRoundTrip(DivideRoundUp(MilliValue(limits.cpu), ratio.cpu).value);
    DivideRoundUpIsLeast(MilliValue(limits.cpu), ratio.cpu);
    DivideRoundUpIsLeast(Value(limits.memory), ratio.memory);
  }

  /** A profile is valid exactly by its pids, mode, limits and ratios, and if its defaults are committable. */
  lemma ValidProfileIff(p: Profile)
    ensures ValidProfile(p) <==>
            && p.pids > 0
            && !ResourceMode(p).Invalid?
            && WellSized(LimitResources(p).value)
            && (ResourceMode(p).Aware? ==>
                  AtLeastOne(p.ratio.value) && Committable(p.ratio.value, LimitResources(p).value))
  {
    if ResourceMode(p).Aware? && AtLeastOne(p.ratio.value) && WellSized(LimitResources(p).value) {
      RequestsExist(p, LimitResources(p).value);
    }
  }

  // ---------------------------------------------------------------- capacity

  function Times(n: int, c: Compute): Compute { Compute(n as real * c.cpu, n as real * c.memory) }

  function Max(a: real, b: real): real { if a < b then b else a }

  predicate Fits(a: Compute, b: Compute) { a.cpu <= b.cpu && a.memory <= b.memory }

  predicate Positive(c: Compute) { c.cpu > 0.0 && c.memory > 0.0 }

  /** The commitment capacity and the runtime budget of a Fastlet for maxSandboxes. */
  function ResolveFastletCapacity(p: Profile, maxSandboxes: int): Option<(Compute, Compute)> {
    if maxSandboxes <= 0 then None
    else if RequestResources(p).None? then None
    else
      var capacity := Times(maxSandboxes, RequestResources(p).value);
      var limits := LimitResources(p).value;
      Some((capacity, Compute(Max(capacity.cpu, limits.cpu), Max(capacity.memory, limits.memory))))
  }

  /** ResourceAdmissionSettings, without the version and the profile hash. */
  datatype Admission = Admission(capacity: Compute, budget: Compute, envelope: Compute, podMemory: real)

  /** The inequalities ResourceAdmissionSettings.Validate checks in the Fastlet. */
  predicate AdmissionValid(s: Admission, p: Profile) {
    && ResourceMode(p).Aware? && RequestResources(p).Some?
    && Positive(s.capacity) && Positive(s.budget) && Positive(s.envelope) && s.podMemory > 0.0
    && Fits(s.capacity, s.budget)
    && Fits(s.budget, s.envelope)
    && s.podMemory >= s.envelope.memory
    && Fits(RequestResources(p).value, s.capacity)
    && Fits(LimitResources(p).value, s.budget)
  }

  lemma OneFits(n: int, c: Compute)
    requires n >= 1 && Positive(c)
    ensures Fits(c, Times(n, c)) && Positive(Times(n, c))
  {
    Scaled(1.0, n as real, c.cpu);
    Scaled(1.0, n as real, c.memory);
  }

  /**
   * What the controller derives from a valid pool passes the Fastlet's own check, whatever envelope and
   * memory budget it adds on top; it succeeds exactly for a positive number of sandboxes.
   */
  lemma DerivedCapacityIsAdmitted(p: Profile, maxSandboxes: int, envelope: Compute, podMemory: real)
    requires ValidProfile(p) && ResourceMode(p).Aware?
    ensures ResolveFastletCapacity(p, maxSandboxes).Some? <==> maxSandboxes > 0
    ensures maxSandboxes > 0 ==>
            var (capacity, budget) := ResolveFastletCapacity(p, maxSandboxes).value;
            Fits(budget, envelope) && envelope.memory <= podMemory ==>
              AdmissionValid(Admission(capacity, budget, envelope, podMemory), p)
  {
    if maxSandboxes > 0 {
      OneFits(maxSandboxes, RequestResources(p).value);
    }
  }

  /** Sandboxes of the default size fit the capacity exactly up to the advertised number. */
  lemma CapacityHoldsExactlyMax(p: Profile, maxSandboxes: int, n: int)
    requires ValidProfile(p) && ResourceMode(p).Aware? && maxSandboxes > 0 && n >= 0
    ensures Fits(Times(n, RequestResources(p).value), ResolveFastletCapacity(p, maxSandboxes).value.0) <==> n <= maxSandboxes
  {
    var r := RequestResources(p).value;
    Scaled(n as real, maxSandboxes as real, r.cpu);
    Scaled(n as real, maxSandboxes as real, r.memory);
    Scaled(maxSandboxes as real, n as real, r.cpu);
  }

  /** The runtime budget is the least that holds both the capacity and one sandbox at its limits. */
  lemma BudgetIsLeast(p: Profile, maxSandboxes: int, c: Compute)
    requires ResolveFastletCapacity(p, maxSandboxes).Some?
    ensures var (capacity, budget) := ResolveFastletCapacity(p, maxSandboxes).value;
            Fits(budget, c) <==> Fits(capacity, c) && Fits(LimitResources(p).value, c)
  {}

  /** Settings the Fastlet accepts admit one default sandbox within everything around it. */
  lemma AdmittedFitsParent(s: Admission, p: Profile)
    requires AdmissionValid(s, p)
    ensures Fits(RequestResources(p).value, s.capacity) && Fits(s.capacity, s.envelope)
    ensures Fits(LimitResources(p).value, s.budget) && Fits(LimitResources(p).value, s.envelope)
    ensures LimitResources(p).value.memory <= s.podMemory
  {}

  // ---------------------------------------------------------------- the sum of what is admitted

  function Plus(a: Compute, b: Compute): Compute { Compute(a.cpu + b.cpu, a.memory + b.memory) }

  function Sum(cs: seq<Compute>): Compute {
    if cs == [] then Compute(0.0, 0.0) else Plus(Sum(cs[..|cs| - 1]), cs[|cs| - 1])
  }

  lemma {:induction false} SumOfSame(c: Compute, n: nat)
    ensures Sum(seq(n, _ => c)) == Times(n, c)
  {
    if n > 0 {
      SumOfSame(c, n - 1);
      assert seq(n, _ => c)[..n - 1] == seq(n - 1, _ => c);
    }
  }

  /** The capacity is the sum of the default requests of as many sandboxes as are advertised. */
  lemma CapacityIsSum(p: Profile, maxSandboxes: nat)
    requires ResolveFastletCapacity(p, maxSandboxes).Some?
    ensures ResolveFastletCapacity(p, maxSandboxes).value.0 == Sum(seq(maxSandboxes, _ => RequestResources(p).value))
  {
    SumOfSame(RequestResources(p).value, maxSandboxes);
  }

  function Scale(ratio: Compute, c: Compute): Compute { Compute(ratio.cpu * c.cpu, ratio.memory * c.memory) }

  lemma MilliWithin(q: real, milli: int, ratio: real)
    requires Covers(milli, ratio, MilliValue(q))
    ensures q <= ratio * FromMilli(milli)
  {
    assert q * 1000.0 <= milli as real * ratio;
    assert ratio * FromMilli(milli) == milli as real * ratio / 1000.0;
  }

  /** One sandbox: its limit is within the ratio times its request. */
  lemma LimitWithinRatio(p: Profile, limits: Compute, request: Compute)
    requires DeriveRequests(p, limits) == Some(request)
    ensures Fits(limits, Scale(p.ratio.value, request))
  {
    var ratio := p.ratio.value;
    var milli := DivideRoundUp(MilliValue(limits.cpu), ratio.cpu).value;
    var bytes := DivideRoundUp(Value(limits.memory), ratio.memory).value;
    assert Covers(milli, ratio.cpu, MilliValue(limits.cpu)) by {
      DivideRoundUpIsLeast(MilliValue(limits.cpu), ratio.cpu);
    }
    assert Covers(bytes, ratio.memory, Value(limits.memory)) by {
      DivideRoundUpIsLeast(Value(limits.memory), ratio.memory);
    }
    MilliWithin(limits.cpu, milli, ratio.cpu);
  }

  lemma ScalePlus(ratio: Compute, a: Compute, b: Compute)
    ensures Scale(ratio, Plus(a, b)) == Plus(Scale(ratio, a), Scale(ratio, b))
  {}

  lemma ScaleMonotone(ratio: Compute, a: Compute, b: Compute)
    requires Positive(ratio) && Fits(a, b)
    ensures Fits(Scale(ratio, a), Scale(ratio, b))
  {
    Scaled(a.cpu, b.cpu, ratio.cpu);
    Scaled(a.memory, b.memory, ratio.memory);
  }

  ghost predicate Derived(p: Profile, limits: seq<Compute>, requests: seq<Compute>) {
    && |limits| == |requests|
    && forall i :: 0 <= i < |limits| ==> DeriveRequests(p, limits[i]) == Some(requests[i])
  }

  lemma {:induction false} SumWithinRatio(p: Profile, limits: seq<Compute>, requests: seq<Compute>)
    requires ResourceMode(p).Aware? && Derived(p, limits, requests)
    ensures Fits(Sum(limits), Scale(p.ratio.value, Sum(requests)))
    decreases |limits|
  {
    if limits != [] {
      var n := |limits| - 1;
      SumWithinRatio(p, limits[..n], requests[..n]);
      LimitWithinRatio(p, limits[n], requests[n]);
      ScalePlus(p.ratio.value, Sum(requests[..n]), requests[n]);
    }
  }

  /** Admitting requests up to the capacity keeps the limits of all admitted sandboxes within ratio times it. */
  lemma OvercommitIsBounded(p: Profile, limits: seq<Compute>, requests: seq<Compute>, capacity: Compute)
    requires ValidProfile(p) && ResourceMode(p).Aware? && Derived(p, limits, requests)
    requires Fits(Sum(requests), capacity)
    ensures Fits(Sum(limits), Scale(p.ratio.value, capacity))
  {
    SumWithinRatio(p, limits, requests);
    ScaleMonotone(p.ratio.value, Sum(requests), capacity);
  }
}
