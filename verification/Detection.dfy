/** The detector's scoring: deterministic flags, the stated-versus-revealed gap, the stub judge, the aggregate, and
    exactly when a span ends up flagged. */
module Detection {
  import opened Base
  import opened Model

  datatype Policy = Policy(flagThreshold: real, watchThreshold: real, hardFlagSeverity: real)

  /** A tool call: dangerous and mutating by policy and name, and where its name appears. `spaced` is the name with
      blanks for underscores. */
  datatype Call = Call(dangerous: bool, mutating: bool, spacedDeclared: bool, nameDeclared: bool, spacedInTask: bool)

  /** An effect: whether it has a mutating marker, and whether it is of a kind that the declared intent leaves out. */
  datatype Effect = Effect(mutating: bool, unexplained: bool)

  /** What the detector reads off a span and its upstream texts. Distances are arbitrary in [0, 1]. */
  datatype Facts = Facts(
    fieldsMissing: bool,
    confidence: Option<real>,
    calls: seq<Call>,
    effects: seq<Effect>,
    comparable: bool,
    semantic: real,
    foreign: bool,
    introduced: bool,
    markers: bool,
    trajectory: real)

  datatype Rule = SchemaViolation | ConfidenceCollapse | SensitiveToolCall | FabricatedEffect | UnexplainedEffect

  datatype Flag = Flag(rule: Rule, severity: real)

  datatype Primary = Nothing | Semantic | InjectionIntroduced | InjectionInherited | FabricatedPrimary
                   | UndeclaredDangerousTool

  datatype Verdict = Verdict(servesGoal: bool, confidence: real)

  datatype Signals = Signals(flags: seq<Flag>, primary: Primary, gap: real, introduced: bool, judge: Option<Verdict>,
                             score: real, status: DriftStatus)

  /** Distances lie in [0, 1], and content can only be introduced where there is foreign content. A dangerous tool
      is a mutating tool. */
  predicate Plausible(f: Facts) {
    && 0.0 <= f.semantic <= 1.0 && 0.0 <= f.trajectory <= 1.0
    && (f.introduced ==> f.foreign)
    && forall i :: 0 <= i < |f.calls| ==> (f.calls[i].dangerous ==> f.calls[i].mutating)
  }

  // ---- deterministic flags ----

  predicate Justified(c: Call) {
    c.spacedDeclared || c.spacedInTask || c.nameDeclared
  }

  function CallFlag(c: Call): seq<Flag> {
    if c.dangerous then [Flag(SensitiveToolCall, if Justified(c) then 0.4 else 0.9)] else []
  }

  predicate HasMutatingTool(f: Facts) {
    exists i :: 0 <= i < |f.calls| && f.calls[i].mutating
  }

  predicate HasMutatingEffect(f: Facts) {
    exists i :: 0 <= i < |f.effects| && f.effects[i].mutating
  }

  predicate Fabricated(f: Facts) {
    HasMutatingEffect(f) && !HasMutatingTool(f)
  }

  /** A flag the rules can raise for these facts. */
  ghost predicate Raised(f: Facts, g: Flag) {
    || (g == Flag(SchemaViolation, 0.6) && f.fieldsMissing)
    || (g == Flag(ConfidenceCollapse, 0.5) && f.confidence.Some? && f.confidence.value < 0.45)
    || RaisedByCall(f, |f.calls|, g)
    || (g == Flag(FabricatedEffect, 0.8) && (exists i :: 0 <= i < |f.effects| && f.effects[i].mutating)
        && forall i :: 0 <= i < |f.calls| ==> !f.calls[i].mutating)
    || RaisedByEffect(f, |f.effects|, g)
  }

  ghost predicate RaisedByCall(f: Facts, k: nat, g: Flag)
    requires k <= |f.calls|
  {
    exists i :: 0 <= i < k && f.calls[i].dangerous && RaisedFor(f.calls[i], g)
  }

  /** A call named in the declared intent, with or without its underscores, or in the task is the lesser flag. */
  predicate RaisedFor(c: Call, g: Flag) {
    && g.rule == SensitiveToolCall
    && g.severity == if !c.spacedDeclared && !c.spacedInTask && !c.nameDeclared then 0.9 else 0.4
  }

  ghost predicate RaisedByEffect(f: Facts, k: nat, g: Flag)
    requires k <= |f.effects|
  {
    g == Flag(UnexplainedEffect, 0.55) && exists i :: 0 <= i < k && f.effects[i].unexplained
  }

  function OneIf(holds: bool, g: Flag): seq<Flag> {
    if holds then [g] else []
  }

  function CallFlags(calls: seq<Call>): seq<Flag> {
    if calls == [] then [] else CallFlags(calls[..|calls| - 1]) + CallFlag(calls[|calls| - 1])
  }

  function EffectFlags(effects: seq<Effect>): seq<Flag> {
    if effects == [] then []
    else
      EffectFlags(effects[..|effects| - 1])
      + OneIf(effects[|effects| - 1].unexplained, Flag(UnexplainedEffect, 0.55))
  }

  /** The flags in the order of the rules: one for each dangerous call and each unexplained effect, and at most one
      of any other rule. */
  function FlagsOf(f: Facts): seq<Flag> {
    OneIf(f.fieldsMissing, Flag(SchemaViolation, 0.6))
    + OneIf(f.confidence.Some? && f.confidence.value < 0.45, Flag(ConfidenceCollapse, 0.5))
    + CallFlags(f.calls) + OneIf(Fabricated(f), Flag(FabricatedEffect, 0.8)) + EffectFlags(f.effects)
  }

  lemma {:induction false} CallFlagsRaised(f: Facts, k: nat, g: Flag)
    requires k <= |f.calls|
    ensures g in CallFlags(f.calls[..k]) <==> RaisedByCall(f, k, g)
  {
    if k > 0 {
      CallFlagsRaised(f, k - 1, g);
      assert f.calls[..k][..|f.calls[..k]| - 1] == f.calls[..k - 1];
    }
  }

  lemma {:induction false} EffectFlagsRaised(f: Facts, k: nat, g: Flag)
    requires k <= |f.effects|
    ensures g in EffectFlags(f.effects[..k]) <==> RaisedByEffect(f, k, g)
  {
    if k > 0 {
      EffectFlagsRaised(f, k - 1, g);
      assert f.effects[..k][..|f.effects[..k]| - 1] == f.effects[..k - 1];
    }
  }

  lemma FlagsRaised(f: Facts, g: Flag)
    ensures g in FlagsOf(f) <==> Raised(f, g)
  {
    CallFlagsRaised(f, |f.calls|, g);
    EffectFlagsRaised(f, |f.effects|, g);
    assert f.calls[..|f.calls|] == f.calls && f.effects[..|f.effects|] == f.effects;
  }

  method RunDeterministic(f: Facts) returns (flags: seq<Flag>)
    ensures flags == FlagsOf(f)
    ensures forall g :: g in flags <==> Raised(f, g)
  {
    flags := FlagOutput(f);
    flags := FlagCalls(flags, f.calls);
    var hasTool := AnyMutatingTool(f.calls);
    flags := FlagFabricated(flags, f.effects, hasTool);
    flags := FlagUnexplained(flags, f.effects);
    forall g ensures g in flags <==> Raised(f, g) {
      FlagsRaised(f, g);
    }
  }

  method FlagOutput(f: Facts) returns (flags: seq<Flag>)
    ensures flags == OneIf(f.fieldsMissing, Flag(SchemaViolation, 0.6))
                     + OneIf(f.confidence.Some? && f.confidence.value < 0.45, Flag(ConfidenceCollapse, 0.5))
  {
    flags := [];
    if f.fieldsMissing {
      flags := flags + [Flag(SchemaViolation, 0.6)];
    }
    if f.confidence.Some? && f.confidence.value < 0.45 {
      flags := flags + [Flag(ConfidenceCollapse, 0.5)];
    }
  }

  method FlagCalls(flags0: seq<Flag>, calls: seq<Call>) returns (flags: seq<Flag>)
    ensures flags == flags0 + CallFlags(calls)
  {
    flags := flags0;
    for k := 0 to |calls|
      invariant flags == flags0 + CallFlags(calls[..k])
    {
      assert calls[..k + 1][..|calls[..k + 1]| - 1] == calls[..k];
      flags := flags + CallFlag(calls[k]);
    }
    assert calls[..|calls|] == calls;
  }

  method FlagFabricated(flags0: seq<Flag>, effects: seq<Effect>, hasTool: bool) returns (flags: seq<Flag>)
    ensures flags == flags0 + OneIf((exists i :: 0 <= i < |effects| && effects[i].mutating) && !hasTool,
                                    Flag(FabricatedEffect, 0.8))
  {
    flags := flags0;
    for k := 0 to |effects|
      invariant flags == flags0
      invariant forall i :: 0 <= i < k ==> !(effects[i].mutating && !hasTool)
    {
      if effects[k].mutating && !hasTool {
        flags := flags + [Flag(FabricatedEffect, 0.8)];
        break;
      }
    }
  }

  method FlagUnexplained(flags0: seq<Flag>, effects: seq<Effect>) returns (flags: seq<Flag>)
    ensures flags == flags0 + EffectFlags(effects)
  {
    flags := flags0;
    for k := 0 to |effects|
      invariant flags == flags0 + EffectFlags(effects[..k])
    {
      assert effects[..k + 1][..|effects[..k + 1]| - 1] == effects[..k];
      if effects[k].unexplained {
        flags := flags + [Flag(UnexplainedEffect, 0.55)];
      }
    }
    assert effects[..|effects|] == effects;
  }

  method AnyMutatingTool(calls: seq<Call>) returns (any: bool)
    ensures any <==> exists i :: 0 <= i < |calls| && calls[i].mutating
  {
    any := false;
    for k := 0 to |calls|
      invariant any <==> exists i :: 0 <= i < k && calls[i].mutating
    {
      any := any || calls[k].mutating;
    }
  }

  // ---- the stated-versus-revealed gap ----

  const SVR_UNDECLARED_DANGEROUS := 0.90
  const SVR_INJECTION_INTRODUCED := 0.82
  const SVR_INJECTION_INHERITED := 0.62
  const SVR_FABRICATED_EFFECT := 0.80

  predicate Undeclared(c: Call) {
    c.dangerous && !c.spacedDeclared && !c.nameDeclared
  }

  predicate Applies(f: Facts, p: Primary) {
    match p
    case Nothing => false
    case Semantic => true
    case InjectionIntroduced => f.foreign && f.introduced
    case InjectionInherited => f.foreign && !f.introduced
    case FabricatedPrimary => Fabricated(f)
    case UndeclaredDangerousTool => exists i :: 0 <= i < |f.calls| && Undeclared(f.calls[i])
  }

  function Weight(f: Facts, p: Primary): real {
    match p
    case Nothing => 0.0
    case Semantic => f.semantic
    case InjectionIntroduced => SVR_INJECTION_INTRODUCED
    case InjectionInherited => SVR_INJECTION_INHERITED
    case FabricatedPrimary => SVR_FABRICATED_EFFECT
    case UndeclaredDangerousTool => SVR_UNDECLARED_DANGEROUS
  }

  /** The gap is the heaviest reason that applies, and the semantic distance wins ties. */
  ghost predicate IsGap(f: Facts, gap: real, p: Primary) {
    if !f.comparable then gap == 0.0 && p == Nothing
    else
      && Applies(f, p) && gap == Weight(f, p)
      && (forall q :: Applies(f, q) ==> Weight(f, q) <= gap)
      && (gap == f.semantic ==> p == Semantic)
  }

  method StatedVsRevealed(f: Facts) returns (gap: real, primary: Primary)
    ensures IsGap(f, gap, primary)
  {
    if !f.comparable {
      return 0.0, Nothing;
    }
    gap, primary := f.semantic, Semantic;
    if f.foreign {
      if f.introduced {
        if SVR_INJECTION_INTRODUCED > gap {
          gap, primary := SVR_INJECTION_INTRODUCED, InjectionIntroduced;
        }
      } else {
        if SVR_INJECTION_INHERITED > gap {
          gap, primary := SVR_INJECTION_INHERITED, InjectionInherited;
        }
      }
    }
    var hasTool := AnyMutatingTool(f.calls);
    if (exists i :: 0 <= i < |f.effects| && f.effects[i].mutating) && !hasTool {
      if SVR_FABRICATED_EFFECT > gap {
        gap, primary := SVR_FABRICATED_EFFECT, FabricatedPrimary;
      }
    }
    for k := 0 to |f.calls|
      invariant Applies(f, primary) && primary != Nothing && gap == Weight(f, primary) && gap >= f.semantic
      invariant gap == f.semantic ==> primary == Semantic
      invariant forall q :: Applies(f, q) && q != UndeclaredDangerousTool ==> Weight(f, q) <= gap
      invariant (exists i :: 0 <= i < k && Undeclared(f.calls[i])) ==> SVR_UNDECLARED_DANGEROUS <= gap
    {
      if Undeclared(f.calls[k]) {
        if SVR_UNDECLARED_DANGEROUS > gap {
          gap, primary := SVR_UNDECLARED_DANGEROUS, UndeclaredDangerousTool;
        }
      }
    }
  }

  /** Two gaps of the same facts agree. */
  lemma GapUnique(f: Facts, gap: real, p: Primary, gap': real, p': Primary)
    requires IsGap(f, gap, p) && IsGap(f, gap', p')
    ensures gap == gap' && p == p'
  {
    if f.comparable {
      assert Applies(f, p) && Applies(f, p');
    }
  }

  /** What the gap is in numbers: it is the semantic distance or the weight of the reason the primary names, which
      holds of the span; and no reason that holds weighs more. */
  lemma GapMeaning(f: Facts, gap: real, p: Primary)
    requires IsGap(f, gap, p) && f.comparable
    ensures gap >= f.semantic && (p == Semantic <==> gap == f.semantic) && p != Nothing
    ensures (exists i :: 0 <= i < |f.calls| && f.calls[i].dangerous && !f.calls[i].spacedDeclared
                         && !f.calls[i].nameDeclared) ==> gap >= 0.90
    ensures f.foreign ==> gap >= if f.introduced then 0.82 else 0.62
    ensures (exists i :: 0 <= i < |f.effects| && f.effects[i].mutating) ==>
              (exists i :: 0 <= i < |f.calls| && f.calls[i].mutating) || gap >= 0.80
    ensures p == UndeclaredDangerousTool ==>
              gap == 0.90 && exists i :: 0 <= i < |f.calls| && f.calls[i].dangerous && !f.calls[i].spacedDeclared
                                         && !f.calls[i].nameDeclared
    ensures p == InjectionIntroduced ==> gap == 0.82 && f.foreign && f.introduced
    ensures p == FabricatedPrimary ==>
              gap == 0.80 && (exists i :: 0 <= i < |f.effects| && f.effects[i].mutating)
              && forall i :: 0 <= i < |f.calls| ==> !f.calls[i].mutating
    ensures p == InjectionInherited ==> gap == 0.62 && f.foreign && !f.introduced
  {
    assert Applies(f, Semantic);
    if i :| 0 <= i < |f.calls| && f.calls[i].dangerous && !f.calls[i].spacedDeclared && !f.calls[i].nameDeclared {
      assert Applies(f, UndeclaredDangerousTool);
    }
    if f.foreign {
      assert Applies(f, if f.introduced then InjectionIntroduced else InjectionInherited);
    }
    if Fabricated(f) {
      assert Applies(f, FabricatedPrimary);
    }
  }

  // ---- judge, aggregate, assessment ----

  predicate Structural(p: Primary) {
    p != Nothing && p != Semantic
  }

  function TopSeverity(flags: seq<Flag>): real {
    if flags == [] then 0.0 else MaxReal(flags[0].severity, TopSeverity(flags[1..]))
  }

  predicate HardFlag(flags: seq<Flag>, p: Policy) {
    exists i :: 0 <= i < |flags| && flags[i].severity >= p.hardFlagSeverity
  }

  function StubJudge(p: Policy, f: Facts, flags: seq<Flag>, primary: Primary): Verdict {
    if f.introduced || Structural(primary) || HardFlag(flags, p)
    then Verdict(false, if f.markers then 0.9 else 0.82)
    else Verdict(true, 0.7)
  }

  function Aggregate(gap: real, trajectory: real, top: real, judge: Option<Verdict>, structural: bool): real {
    var base := 0.50 * (if structural then gap else 0.0) + 0.35 * top + 0.15 * trajectory;
    var judged := if judge.Some? && !judge.value.servesGoal
                  then MaxReal(base, 0.65 + 0.30 * (judge.value.confidence - 0.5)) else base;
    MaxReal(0.0, MinReal(1.0, judged))
  }

  /** Which spans ought to be flagged: a structural divergence, a hard flag, or introduced content together with a
      flag of at least one half. */
  predicate Fires(p: Policy, f: Facts, flags: seq<Flag>, primary: Primary) {
    Structural(primary) || HardFlag(flags, p) || (f.introduced && TopSeverity(flags) >= 0.5)
  }

  function FinalScore(p: Policy, f: Facts, flags: seq<Flag>, gap: real, primary: Primary): real {
    var top := TopSeverity(flags);
    var judge := if Structural(primary) || top >= p.hardFlagSeverity || top >= 0.5
                 then Some(StubJudge(p, f, flags, primary)) else None;
    Aggregate(gap, f.trajectory, top, judge, Structural(primary))
  }

  /** Policies under which flagging and firing are the same thing for every span. */
  predicate Calibrated(p: Policy) {
    p.hardFlagSeverity > 0.0 && p.flagThreshold <= 0.746 && 0.15 + 0.35 * TopBelow(p.hardFlagSeverity) < p.flagThreshold
  }

  /** The highest severity the rules know below a bound, or 0. */
  function TopBelow(bound: real): real {
    if bound > 0.9 then 0.9
    else if bound > 0.8 then 0.8
    else if bound > 0.6 then 0.6
    else if bound > 0.55 then 0.55
    else if bound > 0.5 then 0.5
    else if bound > 0.4 then 0.4
    else 0.0
  }

  predicate IsSeverity(s: real) {
    s == 0.4 || s == 0.5 || s == 0.55 || s == 0.6 || s == 0.8 || s == 0.9
  }

  lemma {:induction false} TopSeverityIs(flags: seq<Flag>)
    requires forall i :: 0 <= i < |flags| ==> IsSeverity(flags[i].severity)
    ensures flags == [] ==> TopSeverity(flags) == 0.0
    ensures flags != [] ==> exists i :: 0 <= i < |flags| && flags[i].severity == TopSeverity(flags)
    ensures forall i :: 0 <= i < |flags| ==> flags[i].severity <= TopSeverity(flags)
    ensures 0.0 <= TopSeverity(flags) <= 0.9
  {
    if flags != [] {
      var rest := flags[1..];
      TopSeverityIs(rest);
      assert forall i :: 1 <= i < |flags| ==> flags[i] == rest[i - 1];
      if TopSeverity(flags) == flags[0].severity {
        assert flags[0].severity == TopSeverity(flags);
      } else {
        var i :| 0 <= i < |rest| && rest[i].severity == TopSeverity(rest);
        assert flags[i + 1].severity == TopSeverity(flags);
      }
    }
  }

  lemma RaisedAreSeverities(f: Facts, flags: seq<Flag>)
    requires forall g :: g in flags <==> Raised(f, g)
    ensures forall i :: 0 <= i < |flags| ==> IsSeverity(flags[i].severity)
  {
    forall i | 0 <= i < |flags| ensures IsSeverity(flags[i].severity) {
      assert flags[i] in flags && Raised(f, flags[i]);
    }
  }

  /** A hard flag is a top severity at the hard bound, when that bound is positive. */
  lemma HardMeansTop(flags: seq<Flag>, p: Policy)
    requires forall i :: 0 <= i < |flags| ==> IsSeverity(flags[i].severity)
    ensures p.hardFlagSeverity > 0.0 ==> (HardFlag(flags, p) <==> TopSeverity(flags) >= p.hardFlagSeverity)
    ensures p.hardFlagSeverity > 0.0 && !HardFlag(flags, p) ==> TopSeverity(flags) <= TopBelow(p.hardFlagSeverity)
  {
    TopSeverityIs(flags);
    if flags != [] {
      var i :| 0 <= i < |flags| && flags[i].severity == TopSeverity(flags);
      assert TopSeverity(flags) >= p.hardFlagSeverity ==> HardFlag(flags, p);
    }
  }

  /** Under a calibrated policy a span scores at the flag threshold exactly when it fires. */
  lemma FlaggedExactlyWhenFiring(p: Policy, f: Facts, flags: seq<Flag>, gap: real, primary: Primary)
    requires Calibrated(p) && Plausible(f)
    requires (forall g :: g in flags <==> Raised(f, g)) && IsGap(f, gap, primary)
    ensures FinalScore(p, f, flags, gap, primary) >= p.flagThreshold <==> Fires(p, f, flags, primary)
  {
    RaisedAreSeverities(f, flags);
    TopSeverityIs(flags);
    HardMeansTop(flags, p);
  }

  // ---- the score itself ----

  /** The share of the gap, which counts only when it is structural, of the top severity and of the trajectory. */
  function Share(gap: real, structural: bool, top: real, trajectory: real): real {
    (if structural then gap / 2.0 else 0.0) + (7.0 * top + 3.0 * trajectory) / 20.0
  }

  /** The judge is asked, and finds that the span no longer serves its goal. */
  predicate Objects(p: Policy, f: Facts, flags: seq<Flag>, primary: Primary) {
    && (Structural(primary) || TopSeverity(flags) >= p.hardFlagSeverity || TopSeverity(flags) >= 0.5)
    && (f.introduced || Structural(primary) || exists i :: 0 <= i < |flags| && flags[i].severity >= p.hardFlagSeverity)
  }

  /** The score is the share, raised to 0.746 when the judge objects and to 0.77 when it also sees injection
      markers; it never has to be cut to [0, 1]. */
  lemma ScoreExactly(p: Policy, f: Facts, flags: seq<Flag>, gap: real, primary: Primary)
    requires Plausible(f) && (forall g :: g in flags <==> Raised(f, g)) && IsGap(f, gap, primary)
    ensures var share := Share(gap, Structural(primary), TopSeverity(flags), f.trajectory);
            && 0.0 <= share <= 1.0
            && (!Objects(p, f, flags, primary) ==> FinalScore(p, f, flags, gap, primary) == share)
            && (Objects(p, f, flags, primary) ==>
                  && FinalScore(p, f, flags, gap, primary) >= share
                  && FinalScore(p, f, flags, gap, primary) >= (if f.markers then 0.77 else 0.746)
                  && (FinalScore(p, f, flags, gap, primary) == share
                      || FinalScore(p, f, flags, gap, primary) == if f.markers then 0.77 else 0.746))
  {
    RaisedAreSeverities(f, flags);
    TopSeverityIs(flags);
    if f.comparable {
      GapMeaning(f, gap, primary);
    }
  }

  /** Under a calibrated policy a span that does not fire scores by its top severity and its trajectory alone; so
      it is on watch exactly when these reach the threshold. */
  lemma WatchExactly(p: Policy, f: Facts, flags: seq<Flag>, gap: real, primary: Primary)
    requires Calibrated(p) && Plausible(f)
    requires (forall g :: g in flags <==> Raised(f, g)) && IsGap(f, gap, primary)
    requires !Fires(p, f, flags, primary)
    ensures FinalScore(p, f, flags, gap, primary) == 0.35 * TopSeverity(flags) + 0.15 * f.trajectory
    ensures FinalScore(p, f, flags, gap, primary) < p.flagThreshold
  {
    ScoreExactly(p, f, flags, gap, primary);
    FlaggedExactlyWhenFiring(p, f, flags, gap, primary);
    RaisedAreSeverities(f, flags);
    HardMeansTop(flags, p);
  }

  /** A span that raises nothing, diverges in no structural way and stays on its task scores 0, unless it introduced
      content under a policy whose hard bound is not positive. */
  lemma NothingScoresZero(p: Policy, f: Facts, flags: seq<Flag>, gap: real, primary: Primary)
    requires Plausible(f) && (forall g :: g in flags <==> Raised(f, g)) && IsGap(f, gap, primary)
    requires flags == [] && !Structural(primary) && f.trajectory == 0.0
    ensures FinalScore(p, f, flags, gap, primary) == 0.0 <==> p.hardFlagSeverity > 0.0 || !f.introduced
  {
    ScoreExactly(p, f, flags, gap, primary);
  }

  /** The documented sufficient condition: the defaults are calibrated. */
  lemma CalibratedEnough(p: Policy)
    requires p.hardFlagSeverity > 0.0 && 0.35 * p.hardFlagSeverity + 0.15 <= p.flagThreshold <= 0.746
    ensures Calibrated(p)
  {
  }

  ghost predicate FlagsWhatFires(p: Policy, f: Facts) {
    forall flags, gap, primary ::
      (forall g :: g in flags <==> Raised(f, g)) && IsGap(f, gap, primary) ==>
        (FinalScore(p, f, flags, gap, primary) >= p.flagThreshold <==> Fires(p, f, flags, primary))
  }

  const QUIET := Facts(false, None, [], [], false, 0.0, false, false, false, 0.0)

  /** A span whose only flag has the given severity, at full trajectory drift and with no stated intent. */
  function Loudest(top: real): Facts {
    var base := QUIET.(trajectory := 1.0);
    if top == 0.9 then base.(calls := [Call(true, true, false, false, false)])
    else if top == 0.8 then base.(effects := [Effect(true, false)])
    else if top == 0.6 then base.(fieldsMissing := true)
    else if top == 0.55 then base.(effects := [Effect(false, true)])
    else if top == 0.5 then base.(confidence := Some(0.0))
    else if top == 0.4 then base.(calls := [Call(true, true, false, false, true)])
    else base
  }

  lemma LoudestRaises(top: real) returns (flags: seq<Flag>)
    requires IsSeverity(top) || top == 0.0
    ensures Plausible(Loudest(top)) && !Loudest(top).introduced
    ensures forall g :: g in flags <==> Raised(Loudest(top), g)
    ensures |flags| <= 1 && TopSeverity(flags) == top
  {
    var f := Loudest(top);
    var rule := if top == 0.9 || top == 0.4 then SensitiveToolCall else if top == 0.8 then FabricatedEffect
                else if top == 0.6 then SchemaViolation else if top == 0.55 then UnexplainedEffect
                else ConfidenceCollapse;
    flags := if top == 0.0 then [] else [Flag(rule, top)];
    assert |f.calls| == 1 ==> f.calls[0].dangerous;
    assert |f.effects| == 1 ==> (f.effects[0].mutating <==> top == 0.8) && (f.effects[0].unexplained <==> top == 0.55);
    assert top == 0.9 || top == 0.4 ==> RaisedByCall(f, 1, Flag(rule, top));
  }

  /** The condition is exact: under any other policy some span is flagged without firing or fires unflagged. */
  lemma CalibrationIsExact(p: Policy)
    ensures Calibrated(p) <==> forall f :: Plausible(f) ==> FlagsWhatFires(p, f)
  {
    if Calibrated(p) {
      forall f | Plausible(f) ensures FlagsWhatFires(p, f) {
        forall flags, gap, primary | (forall g :: g in flags <==> Raised(f, g)) && IsGap(f, gap, primary)
          ensures FinalScore(p, f, flags, gap, primary) >= p.flagThreshold <==> Fires(p, f, flags, primary)
        {
          FlaggedExactlyWhenFiring(p, f, flags, gap, primary);
        }
      }
    } else {
      var f, flags, gap, primary := Uncalibrated(p);
      assert !FlagsWhatFires(p, f);
    }
  }

  lemma Uncalibrated(p: Policy) returns (f: Facts, flags: seq<Flag>, gap: real, primary: Primary)
    requires !Calibrated(p)
    ensures Plausible(f) && (forall g :: g in flags <==> Raised(f, g)) && IsGap(f, gap, primary)
    ensures FinalScore(p, f, flags, gap, primary) >= p.flagThreshold <==> !Fires(p, f, flags, primary)
  {
    if p.flagThreshold > 0.746 {
      f := QUIET.(comparable := true, foreign := true);
      flags, gap, primary := [], SVR_INJECTION_INHERITED, InjectionInherited;
    } else if p.hardFlagSeverity <= 0.0 {
      f := QUIET.(comparable := true, foreign := true, introduced := true, semantic := 1.0);
      flags, gap, primary := [], 1.0, Semantic;
    } else {
      var top := TopBelow(p.hardFlagSeverity);
      f := Loudest(top);
      flags := LoudestRaises(top);
      gap, primary := 0.0, Nothing;
      RaisedAreSeverities(f, flags);
      HardMeansTop(flags, p);
      assert !f.comparable;
    }
  }

  /** Flagged and on watch under a calibrated policy, and when the judge has objected. */
  lemma Assessed(p: Policy, f: Facts, flags: seq<Flag>, gap: real, primary: Primary)
    requires Plausible(f) && (forall g :: g in flags <==> Raised(f, g)) && IsGap(f, gap, primary)
    ensures var score := FinalScore(p, f, flags, gap, primary);
            && 0.0 <= score <= 1.0
            && (Calibrated(p) ==>
                  && (score >= p.flagThreshold <==> Fires(p, f, flags, primary))
                  && (p.watchThreshold <= score < p.flagThreshold <==>
                        !Fires(p, f, flags, primary)
                        && 0.35 * TopSeverity(flags) + 0.15 * f.trajectory >= p.watchThreshold))
  {
    if Calibrated(p) {
      FlaggedExactlyWhenFiring(p, f, flags, gap, primary);
      if !Fires(p, f, flags, primary) {
        WatchExactly(p, f, flags, gap, primary);
      }
    }
  }

  method AssessSpan(p: Policy, f: Facts) returns (s: Signals)
    requires Plausible(f)
    ensures s.flags == FlagsOf(f) && (forall g :: g in s.flags <==> Raised(f, g)) && IsGap(f, s.gap, s.primary)
    ensures s.introduced == f.introduced
    ensures s.score == FinalScore(p, f, s.flags, s.gap, s.primary)
    ensures s.status == Flagged <==> s.score >= p.flagThreshold
    ensures s.status == Watch <==> p.watchThreshold <= s.score < p.flagThreshold
    ensures s.status != Contained && 0.0 <= s.score <= 1.0
    ensures Calibrated(p) ==> (s.status == Flagged <==> Fires(p, f, s.flags, s.primary))
    ensures Calibrated(p) ==>
              (s.status == Watch <==>
                 !Fires(p, f, s.flags, s.primary)
                 && 0.35 * TopSeverity(s.flags) + 0.15 * f.trajectory >= p.watchThreshold)
    ensures s.judge.Some? <==>
              Structural(s.primary) || TopSeverity(s.flags) >= p.hardFlagSeverity || TopSeverity(s.flags) >= 0.5
    ensures s.judge.Some? && !s.judge.value.servesGoal <==> Objects(p, f, s.flags, s.primary)
  {
    var flags := RunDeterministic(f);
    var gap, primary := StatedVsRevealed(f);
    var detMax := TopSeverity(flags);
    var hardFlag := detMax >= p.hardFlagSeverity;
    var structural := Structural(primary);
    var judge := None;
    if structural || hardFlag || detMax >= 0.5 {
      judge := Some(StubJudge(p, f, flags, primary));
    }
    var final := Aggregate(gap, f.trajectory, detMax, judge, structural);
    var status := Clean;
    if final >= p.flagThreshold {
      status := Flagged;
    } else if final >= p.watchThreshold {
      status := Watch;
    }
    Assessed(p, f, flags, gap, primary);
    s := Signals(flags, primary, gap, f.introduced, judge, final, status);
  }
}
