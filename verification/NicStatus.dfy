/** The status conditions of a NginxIngressController: how one condition is set,
    and what `updateStatus` derives from a reconcile. */
module NicStatus {
  import opened Wrappers

  datatype Status = True | False | Unknown

  /** The four types the operator sets; the list may hold others. */
  datatype Type = Available | IngressClassReady | ControllerAvailable | Progressing | OtherType(name: string)

  datatype Reason =
    | IngressClassUnknown | IngressClassIsReady
    | ControllerDeploymentUnknown | ControllerDeploymentAvailable | ControllerDeploymentNotAvailable
    | ControllerDeploymentProgressing | ControllerDeploymentNotProgressing | ControllerDeploymentProgressingUnknown
    | ControllerIsAvailable | ControllerIsNotAvailable
    | IngressClassCollision | TooManyCollisions
    | OtherReason(name: string)

  /** Each reason has one message, except that a Deployment can be unknown in two ways. */
  datatype Message = ForReason | DeploymentInUnknownState | OtherMessage(text: string)

  datatype Condition = Condition(kind: Type, status: Status, reason: Reason, message: Message,
                                 observedGeneration: int, lastTransition: int)

  // ---- condition lists ----------------------------------------------------------------------

  /** Index of the first condition of that type; the length if there is none. */
  function Find(cs: seq<Condition>, kind: Type): (i: nat)
    ensures i <= |cs|
    ensures i < |cs| ==> cs[i].kind == kind
    ensures forall j | 0 <= j < i :: cs[j].kind != kind
  {
    if cs == [] then 0 else if cs[0].kind == kind then 0 else 1 + Find(cs[1..], kind)
  }

  ghost predicate Unique(cs: seq<Condition>) {
    forall i, j | 0 <= i < j < |cs| :: cs[i].kind != cs[j].kind
  }

  /** The list as its readers see it: for each type, the first condition of that type. */
  function View(cs: seq<Condition>): (m: map<Type, Condition>)
    ensures forall k :: k in m <==> Find(cs, k) < |cs|
    ensures forall k | k in m :: m[k] == cs[Find(cs, k)]
  {
    if cs == [] then map[] else View(cs[1..])[cs[0].kind := cs[0]]
  }

  /** `meta.SetStatusCondition`: append, or update in place; the transition time
      moves with the status only. */
  function SetStatusCondition(cs: seq<Condition>, c: Condition): seq<Condition> {
    var i := Find(cs, c.kind);
    if i == |cs| then cs + [c]
    else if cs[i].status != c.status then cs[i := c]
    else cs[i := c.(lastTransition := cs[i].lastTransition)]
  }

  /** The part of a condition its author chooses. */
  datatype Setting = Setting(kind: Type, status: Status, reason: Reason, message: Message := ForReason)

  predicate Says(c: Condition, x: Setting) {
    c.kind == x.kind && c.status == x.status && c.reason == x.reason && c.message == x.message
  }

  function VerifyAndSet(cs: seq<Condition>, x: Setting, generation: int, now: int): seq<Condition> {
    var i := Find(cs, x.kind);
    if i < |cs| && Says(cs[i], x) then cs[i := cs[i].(observedGeneration := generation)]
    else SetStatusCondition(cs, Condition(x.kind, x.status, x.reason, x.message, generation, now))
  }

  /** What setting a condition means for the readers: that type says what was set,
      and its transition time is now exactly if its status was different. */
  function SetIn(m: map<Type, Condition>, x: Setting, generation: int, now: int): map<Type, Condition> {
    var since := if x.kind in m && m[x.kind].status == x.status then m[x.kind].lastTransition else now;
    m[x.kind := Condition(x.kind, x.status, x.reason, x.message, generation, since)]
  }

  lemma FindUnique(cs: seq<Condition>, kind: Type, i: nat)
    requires Unique(cs) && i < |cs| && cs[i].kind == kind
    ensures Find(cs, kind) == i
  {
  }

  /** Where each type is found after setting one condition. */
  lemma FindAfterSet(cs: seq<Condition>, x: Setting, generation: int, now: int, k: Type)
    requires Unique(cs)
    ensures var cs' := VerifyAndSet(cs, x, generation, now);
            && Unique(cs') && |cs| <= |cs'|
            && (Find(cs', k) < |cs'| <==> Find(cs, k) < |cs| || k == x.kind)
            && (Find(cs', k) < |cs'| ==> Find(cs', k) == Find(cs, k))
  {
    var cs' := VerifyAndSet(cs, x, generation, now);
    var j := Find(cs, k);
    assert forall i | 0 <= i < |cs| :: cs'[i].kind == cs[i].kind;
    if j < |cs'| && cs'[j].kind == k {
      FindUnique(cs', k, j);
    }
  }

  /** The condition that was set: at its old place, or at the end. */
  lemma SetEntry(cs: seq<Condition>, x: Setting, generation: int, now: int)
    ensures var i, cs' := Find(cs, x.kind), VerifyAndSet(cs, x, generation, now);
            && i < |cs'|
            && cs'[i] == Condition(x.kind, x.status, x.reason, x.message, generation,
                                   if i < |cs| && cs[i].status == x.status then cs[i].lastTransition else now)
            && (forall j | 0 <= j < |cs| && j != i :: cs'[j] == cs[j])
  {
  }

  /** One entry written at `i`, the first place of its type, is one entry set in the view. */
  lemma ViewFollows(cs: seq<Condition>, cs': seq<Condition>, i: nat, c: Condition, k: Type)
    requires i == Find(cs, c.kind) && i < |cs'| && |cs| <= |cs'| && cs'[i] == c
    requires forall j | 0 <= j < |cs| && j != i :: cs'[j] == cs[j]
    requires Find(cs', k) < |cs'| <==> Find(cs, k) < |cs| || k == c.kind
    requires Find(cs', k) < |cs'| ==> Find(cs', k) == Find(cs, k)
    ensures k in View(cs') <==> k in View(cs)[c.kind := c]
    ensures k in View(cs') ==> View(cs')[k] == View(cs)[c.kind := c][k]
  {
    if Find(cs', k) < |cs'| && k != c.kind {
      assert Find(cs, k) < |cs| && cs[Find(cs, k)].kind == k;
    }
  }

  lemma ViewAfterSet(cs: seq<Condition>, x: Setting, generation: int, now: int, k: Type)
    requires Unique(cs)
    ensures var m, m' := SetIn(View(cs), x, generation, now), View(VerifyAndSet(cs, x, generation, now));
            (k in m' <==> k in m) && (k in m ==> m'[k] == m[k])
  {
    FindAfterSet(cs, x, generation, now, k);
    SetEntry(cs, x, generation, now);
    var i, cs' := Find(cs, x.kind), VerifyAndSet(cs, x, generation, now);
    ViewFollows(cs, cs', i, cs'[i], k);
  }

  /** Setting a condition keeps types unique, and readers see exactly that one type set. */
  lemma SetConditionEffect(cs: seq<Condition>, x: Setting, generation: int, now: int)
    requires Unique(cs)
    ensures Unique(VerifyAndSet(cs, x, generation, now))
    ensures View(VerifyAndSet(cs, x, generation, now)) == SetIn(View(cs), x, generation, now)
  {
    FindAfterSet(cs, x, generation, now, x.kind);
    SameView(SetIn(View(cs), x, generation, now), View(VerifyAndSet(cs, x, generation, now))) by {
      forall k
        ensures var m, m' := SetIn(View(cs), x, generation, now), View(VerifyAndSet(cs, x, generation, now));
                (k in m' <==> k in m) && (k in m ==> m'[k] == m[k])
      {
        ViewAfterSet(cs, x, generation, now, k);
      }
    }
  }

  /** The list after any series of settings, each with its generation and clock reading. */
  function SetAll(xs: seq<(Setting, int, int)>): seq<Condition> {
    if xs == [] then []
    else var (x, generation, now) := xs[|xs| - 1]; VerifyAndSet(SetAll(xs[..|xs| - 1]), x, generation, now)
  }

  /** Starting from no conditions, types are unique after any series of settings. */
  lemma {:induction false} TypesStayUnique(xs: seq<(Setting, int, int)>)
    ensures Unique(SetAll(xs))
  {
    if xs == [] {
    } else {
      TypesStayUnique(xs[..|xs| - 1]);
      var (x, generation, now) := xs[|xs| - 1];
      SetConditionEffect(SetAll(xs[..|xs| - 1]), x, generation, now);
    }
  }

  // ---- transition times ----------------------------------------------------------------------

  type Settings = seq<(Setting, int, int)>

  /** The settings of one type, in order. */
  function About(xs: Settings, k: Type): Settings {
    if xs == [] then []
    else About(xs[..|xs| - 1], k) + if xs[|xs| - 1].0.kind == k then [xs[|xs| - 1]] else []
  }

  /** When the status that a series of settings of one type ends with was first set: where
      its last stretch of equal statuses begins. */
  function StretchStart(xs: Settings): (i: nat)
    requires xs != []
    ensures i < |xs|
    ensures forall j | i <= j < |xs| :: xs[j].0.status == xs[|xs| - 1].0.status
    ensures i > 0 ==> xs[i - 1].0.status != xs[|xs| - 1].0.status
  {
    var n := |xs| - 1;
    if n == 0 || xs[n - 1].0.status != xs[n].0.status then n else StretchStart(xs[..n])
  }

  /** A type that was ever set says what was set last, and its transition time is the time
      at which its present status began. */
  ghost predicate TrueFor(m: map<Type, Condition>, ys: Settings, k: Type) {
    && (k in m <==> ys != [])
    && (ys != [] ==>
          && m[k].kind == k && Says(m[k], ys[|ys| - 1].0) && m[k].observedGeneration == ys[|ys| - 1].1
          && m[k].lastTransition == ys[StretchStart(ys)].2)
  }

  lemma TrueStep(m: map<Type, Condition>, ys: Settings, k: Type, x: Setting, generation: int, now: int)
    requires TrueFor(m, ys, k)
    ensures TrueFor(SetIn(m, x, generation, now), if x.kind == k then ys + [(x, generation, now)] else ys, k)
  {
    if x.kind == k {
      var zs := ys + [(x, generation, now)];
      assert zs[..|ys|] == ys;
    }
  }

  /** The readers' view of a series of settings. */
  function SetAllIn(xs: Settings): map<Type, Condition> {
    if xs == [] then map[]
    else SetIn(SetAllIn(xs[..|xs| - 1]), xs[|xs| - 1].0, xs[|xs| - 1].1, xs[|xs| - 1].2)
  }

  lemma {:induction false} ViewOfAll(xs: Settings)
    ensures View(SetAll(xs)) == SetAllIn(xs)
  {
    if xs == [] {
    } else {
      var init, last := xs[..|xs| - 1], xs[|xs| - 1];
      ViewOfAll(init);
      TypesStayUnique(init);
      SetConditionEffect(SetAll(init), last.0, last.1, last.2);
    }
  }

  lemma {:induction false} TransitionsIn(xs: Settings, k: Type)
    ensures TrueFor(SetAllIn(xs), About(xs, k), k)
  {
    if xs == [] {
    } else {
      var init, last := xs[..|xs| - 1], xs[|xs| - 1];
      TransitionsIn(init, k);
      TrueStep(SetAllIn(init), About(init, k), k, last.0, last.1, last.2);
    }
  }

  /** So it is over any series of settings from an empty list. */
  lemma {:induction false} TransitionsAreTrue(xs: Settings, k: Type)
    ensures TrueFor(View(SetAll(xs)), About(xs, k), k)
  {
    ViewOfAll(xs);
    TransitionsIn(xs, k);
  }

  lemma SameView(m: map<Type, Condition>, m': map<Type, Condition>)
    requires forall k :: (k in m' <==> k in m) && (k in m ==> m'[k] == m[k])
    ensures m == m'
  {
  }

  // ---- what a reconcile hands to updateStatus -------------------------------------------------

  datatype DeploymentCondition = DeploymentProgressing(status: Status) | DeploymentAvailable(status: Status) | DeploymentOther

  /** The Deployment as the upsert returned it: `created` is a non-zero creation time. */
  datatype Deployment = NoDeployment | Deployment(created: bool, conditions: seq<DeploymentCondition>)

  /** The IngressClass: nil, or upserted with or without a creation time. */
  datatype IngressClass = NoIngressClass | IngressClass(created: bool)

  datatype CollisionError = NoError | IcCollision | MaxCollisions | OtherError

  function IcSetting(ic: IngressClass): Setting {
    if ic.NoIngressClass? || !ic.created then Setting(IngressClassReady, Unknown, IngressClassUnknown)
    else Setting(IngressClassReady, True, IngressClassIsReady)
  }

  function AvailableSetting(both: bool): Setting {
    if both then Setting(Available, True, ControllerIsAvailable)
    else Setting(Available, False, ControllerIsNotAvailable)
  }

  function DeploymentSetting(dc: DeploymentCondition): Option<Setting> {
    match dc
    case DeploymentAvailable(True) => Some(Setting(ControllerAvailable, True, ControllerDeploymentAvailable))
    case DeploymentAvailable(False) => Some(Setting(ControllerAvailable, False, ControllerDeploymentNotAvailable))
    case DeploymentAvailable(Unknown) =>
      Some(Setting(ControllerAvailable, Unknown, ControllerDeploymentUnknown, DeploymentInUnknownState))
    case DeploymentProgressing(True) => Some(Setting(Progressing, True, ControllerDeploymentProgressing))
    case DeploymentProgressing(False) => Some(Setting(Progressing, False, ControllerDeploymentNotProgressing))
    case DeploymentProgressing(Unknown) => Some(Setting(Progressing, Unknown, ControllerDeploymentProgressingUnknown))
    case DeploymentOther => None
  }

  const UNKNOWN_AVAILABLE := Setting(ControllerAvailable, Unknown, ControllerDeploymentUnknown)
  const UNKNOWN_PROGRESSING := Setting(Progressing, Unknown, ControllerDeploymentUnknown)
  const IC_COLLISION := Setting(Progressing, False, IngressClassCollision)
  const TOO_MANY := Setting(Progressing, False, TooManyCollisions)

  // ---- one status update ---------------------------------------------------------------------

  type Conditions = map<Type, Condition>

  /** What one reconcile passes in, and the clock reading it sets conditions with. */
  datatype Update = Update(d: Deployment, ic: IngressClass, err: CollisionError, generation: int, now: int)

  function ApplyDeployment(m: Conditions, dcs: seq<DeploymentCondition>, u: Update): Conditions
    decreases |dcs|
  {
    if dcs == [] then m
    else
      var x := DeploymentSetting(dcs[0]);
      ApplyDeployment(if x.Some? then SetIn(m, x.value, u.generation, u.now) else m, dcs[1..], u)
  }

  predicate Is(m: Conditions, kind: Type, st: Status) {
    kind in m && m[kind].status == st
  }

  predicate BothReady(m: Conditions) {
    Is(m, ControllerAvailable, True) && Is(m, IngressClassReady, True)
  }

  function FromParts(m: Conditions, u: Update): Conditions {
    var withIc := SetIn(m, IcSetting(u.ic), u.generation, u.now);
    if u.d.NoDeployment? || !u.d.created then
      SetIn(SetIn(withIc, UNKNOWN_AVAILABLE, u.generation, u.now), UNKNOWN_PROGRESSING, u.generation, u.now)
    else ApplyDeployment(withIc, u.d.conditions, u)
  }

  function FromError(m: Conditions, u: Update): Conditions {
    match u.err
    case IcCollision => SetIn(m, IC_COLLISION, u.generation, u.now)
    case MaxCollisions => SetIn(m, TOO_MANY, u.generation, u.now)
    case _ => m
  }

  function UpdateStatus(m: Conditions, u: Update): Conditions {
    var parts := FromParts(m, u);
    FromError(SetIn(parts, AvailableSetting(BothReady(parts)), u.generation, u.now), u)
  }

  function AfterHistory(m: Conditions, us: seq<Update>): Conditions {
    if us == [] then m else UpdateStatus(AfterHistory(m, us[..|us| - 1]), us[|us| - 1])
  }

  /** The derivation `updateStatus` promises: Available is True exactly when both parts are, else False. */
  ghost predicate AvailableIsDerived(m: Conditions) {
    var both := Is(m, ControllerAvailable, True) && Is(m, IngressClassReady, True);
    && Is(m, Available, if both then True else False)
    && m[Available].reason == if both then ControllerIsAvailable else ControllerIsNotAvailable
  }

  /** The Deployment's conditions never touch IngressClassReady. */
  lemma {:induction false} DeploymentKeepsIc(m: Conditions, dcs: seq<DeploymentCondition>, u: Update)
    requires IngressClassReady in m
    ensures var m' := ApplyDeployment(m, dcs, u); IngressClassReady in m' && m'[IngressClassReady] == m[IngressClassReady]
    decreases |dcs|
  {
    if dcs == [] {
    } else {
      var x := DeploymentSetting(dcs[0]);
      DeploymentKeepsIc(if x.Some? then SetIn(m, x.value, u.generation, u.now) else m, dcs[1..], u);
    }
  }

  /** One update, from any earlier status: IngressClassReady is what this reconcile
      saw, Available follows from the parts, and a collision is what Progressing says. */
  lemma UpdateStatusEffect(m: Conditions, u: Update)
    ensures var m' := UpdateStatus(m, u);
            && AvailableIsDerived(m')
            && Is(m', IngressClassReady, if u.ic.IngressClass? && u.ic.created then True else Unknown)
            && m'[IngressClassReady].reason == (if u.ic.IngressClass? && u.ic.created then IngressClassIsReady else IngressClassUnknown)
            && m'[Available].observedGeneration == m'[IngressClassReady].observedGeneration == u.generation
            && (u.err.IcCollision? ==> Is(m', Progressing, False) && m'[Progressing].reason == IngressClassCollision)
            && (u.err.MaxCollisions? ==> Is(m', Progressing, False) && m'[Progressing].reason == TooManyCollisions)
  {
    if u.d.Deployment? && u.d.created {
      DeploymentKeepsIc(SetIn(m, IcSetting(u.ic), u.generation, u.now), u.d.conditions, u);
    }
  }

  /** Without a created Deployment, whatever the status was before and whether or not there
      is an IngressClass: ControllerAvailable is Unknown, so Available is False, and
      Progressing is Unknown unless there is a collision. */
  lemma NoDeploymentReported(m: Conditions, u: Update)
    requires u.d.NoDeployment? || !u.d.created
    ensures var m' := UpdateStatus(m, u);
            && Is(m', ControllerAvailable, Unknown) && m'[ControllerAvailable].reason == ControllerDeploymentUnknown
            && Is(m', Available, False)
            && (!u.err.IcCollision? && !u.err.MaxCollisions? ==>
                  Is(m', Progressing, Unknown) && m'[Progressing].reason == ControllerDeploymentUnknown)
  {
  }

  /** The reason that goes with a report of the Deployment. */
  predicate ReasonFits(kind: Type, st: Status, reason: Reason) {
    && (kind == ControllerAvailable && st == True ==> reason == ControllerDeploymentAvailable)
    && (kind == ControllerAvailable && st == False ==> reason == ControllerDeploymentNotAvailable)
    && (kind == ControllerAvailable && st == Unknown ==> reason == ControllerDeploymentUnknown)
    && (kind == Progressing && st == True ==> reason == ControllerDeploymentProgressing)
    && (kind == Progressing && st == False ==> reason == ControllerDeploymentNotProgressing)
    && (kind == Progressing && st == Unknown ==> reason == ControllerDeploymentProgressingUnknown)
  }

  /** A condition of the Deployment that is about this condition of the controller. */
  predicate Concerns(dc: DeploymentCondition, kind: Type) {
    (kind == ControllerAvailable && dc.DeploymentAvailable?) || (kind == Progressing && dc.DeploymentProgressing?)
  }

  lemma {:induction false} NotAboutUntouched(m: Conditions, dcs: seq<DeploymentCondition>, u: Update, kind: Type)
    requires forall j | 0 <= j < |dcs| :: !Concerns(dcs[j], kind)
    requires kind == ControllerAvailable || kind == Progressing
    ensures var m' := ApplyDeployment(m, dcs, u); (kind in m' <==> kind in m) && (kind in m ==> m'[kind] == m[kind])
    decreases |dcs|
  {
    if dcs == [] {
    } else {
      assert !Concerns(dcs[0], kind);
      var x := DeploymentSetting(dcs[0]);
      NotAboutUntouched(if x.Some? then SetIn(m, x.value, u.generation, u.now) else m, dcs[1..], u, kind);
    }
  }

  /** The last condition of the Deployment about availability, or about progress, is what counts. */
  lemma {:induction false} LastAboutDecides(m: Conditions, dcs: seq<DeploymentCondition>, u: Update, kind: Type, i: nat)
    requires i < |dcs| && Concerns(dcs[i], kind) && forall j | i < j < |dcs| :: !Concerns(dcs[j], kind)
    ensures Is(ApplyDeployment(m, dcs, u), kind, dcs[i].status)
    ensures ReasonFits(kind, dcs[i].status, ApplyDeployment(m, dcs, u)[kind].reason)
    ensures kind == ControllerAvailable && dcs[i].status == Unknown ==>
              ApplyDeployment(m, dcs, u)[kind].message == DeploymentInUnknownState
    decreases |dcs|
  {
    var x := DeploymentSetting(dcs[0]);
    var m' := if x.Some? then SetIn(m, x.value, u.generation, u.now) else m;
    if i == 0 {
      NotAboutUntouched(m', dcs[1..], u, kind);
    } else {
      LastAboutDecides(m', dcs[1..], u, kind, i - 1);
    }
  }

  /** From the objects to the verdict: with a Deployment that reports on its
      availability, Available is True exactly when its last report says so and
      the IngressClass exists. */
  lemma AvailableIff(m: Conditions, u: Update, i: nat)
    requires u.d.Deployment? && u.d.created && i < |u.d.conditions| && u.d.conditions[i].DeploymentAvailable?
    requires forall j | i < j < |u.d.conditions| :: !u.d.conditions[j].DeploymentAvailable?
    ensures var m' := UpdateStatus(m, u);
            && Is(m', ControllerAvailable, u.d.conditions[i].status)
            && ReasonFits(ControllerAvailable, u.d.conditions[i].status, m'[ControllerAvailable].reason)
            && (Is(m', Available, True) <==> u.d.conditions[i].status == True && u.ic.IngressClass? && u.ic.created)
  {
    UpdateStatusEffect(m, u);
    assert forall j | i < j < |u.d.conditions| :: !Concerns(u.d.conditions[j], ControllerAvailable);
    LastAboutDecides(SetIn(m, IcSetting(u.ic), u.generation, u.now), u.d.conditions, u, ControllerAvailable, i);
  }

  /** Likewise Progressing repeats the Deployment's last report, unless a collision takes precedence. */
  lemma ProgressIsReported(m: Conditions, u: Update, i: nat)
    requires u.d.Deployment? && u.d.created && i < |u.d.conditions| && u.d.conditions[i].DeploymentProgressing?
    requires forall j | i < j < |u.d.conditions| :: !u.d.conditions[j].DeploymentProgressing?
    requires !u.err.IcCollision? && !u.err.MaxCollisions?
    ensures Is(UpdateStatus(m, u), Progressing, u.d.conditions[i].status)
    ensures ReasonFits(Progressing, u.d.conditions[i].status, UpdateStatus(m, u)[Progressing].reason)
  {
    assert forall j | i < j < |u.d.conditions| :: !Concerns(u.d.conditions[j], Progressing);
    LastAboutDecides(SetIn(m, IcSetting(u.ic), u.generation, u.now), u.d.conditions, u, Progressing, i);
  }

  /** After any non-empty history of updates Available is derived. */
  lemma AvailableAfterHistory(m: Conditions, us: seq<Update>)
    requires us != []
    ensures AvailableIsDerived(AfterHistory(m, us))
  {
    UpdateStatusEffect(AfterHistory(m, us[..|us| - 1]), us[|us| - 1]);
  }

  /** A reconcile that ends in an unreconcilable collision built no object, so it
      reports neither a Deployment nor an IngressClass: whatever came before,
      Available is False and Progressing is False for that collision's reason. */
  lemma CollisionIsReported(m: Conditions, us: seq<Update>, u: Update)
    requires u.err.IcCollision? || u.err.MaxCollisions?
    requires u.d.NoDeployment? && u.ic.NoIngressClass?
    ensures var m' := AfterHistory(m, us + [u]);
            && Is(m', Available, False) && Is(m', Progressing, False)
            && m'[Progressing].reason == if u.err.IcCollision? then IngressClassCollision else TooManyCollisions
  {
    assert (us + [u])[..|us|] == us;
    UpdateStatusEffect(AfterHistory(m, us), u);
  }

  // ---- the status object ---------------------------------------------------------------------

  class Controller {
    var generation: int
    var conditions: seq<Condition>

    constructor (generation: int)
      ensures this.generation == generation && conditions == []
    {
      this.generation := generation;
      conditions := [];
    }

    /** Writes through the found entry, or replaces or appends it. */
    method SetCondition(x: Setting, now: int)
      requires Unique(conditions)
      modifies this`conditions
      ensures Unique(conditions) && View(conditions) == SetIn(View(old(conditions)), x, generation, now)
      ensures conditions == VerifyAndSet(old(conditions), x, generation, now)
    {
      SetConditionEffect(conditions, x, generation, now);
      var i := Find(conditions, x.kind);
      if i < |conditions| && Says(conditions[i], x) {
        conditions := conditions[i := conditions[i].(observedGeneration := generation)];
        return;
      }
      conditions := SetStatusCondition(conditions, Condition(x.kind, x.status, x.reason, x.message, generation, now));
    }

    method SetFromDeployment(dcs: seq<DeploymentCondition>, u: Update)
      requires Unique(conditions) && u.generation == generation
      modifies this`conditions
      ensures Unique(conditions) && View(conditions) == ApplyDeployment(View(old(conditions)), dcs, u)
    {
      var i := 0;
      while i < |dcs|
        invariant 0 <= i <= |dcs|
        invariant Unique(conditions)
        invariant ApplyDeployment(View(conditions), dcs[i..], u) == ApplyDeployment(View(old(conditions)), dcs, u)
      {
        assert dcs[i..][1..] == dcs[i + 1..];
        var x := DeploymentSetting(dcs[i]);
        if x.Some? {
          SetCondition(x.value, u.now);
        }
        i := i + 1;
      }
    }

    method Update(u: Update)
      requires Unique(conditions) && u.generation == generation
      modifies this`conditions
      ensures Unique(conditions) && View(conditions) == UpdateStatus(View(old(conditions)), u)
      ensures AvailableIsDerived(View(conditions))
    {
      UpdateStatusEffect(View(conditions), u);
      SetCondition(IcSetting(u.ic), u.now);
      if u.d.NoDeployment? || !u.d.created {
        SetCondition(UNKNOWN_AVAILABLE, u.now);
        SetCondition(UNKNOWN_PROGRESSING, u.now);
      } else {
        SetFromDeployment(u.d.conditions, u);
      }
      SetCondition(AvailableSetting(BothReady(View(conditions))), u.now);
      match u.err {
        case IcCollision => SetCondition(IC_COLLISION, u.now);
        case MaxCollisions => SetCondition(TOO_MANY, u.now);
        case _ =>
      }
    }
  }
}
