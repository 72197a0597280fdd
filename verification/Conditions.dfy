/** Copying the conditions of a provider NodeClass into those of its OpenShift NodeClass. */
module Conditions {
  import opened Wrappers

  const READY := "Ready"
  const VERSION_RESOLVED := "VersionResolved"
  const SUPPORTED_VERSION_SKEW := "SupportedVersionSkew"
  const RESOLUTION_FAILED := "ResolutionFailed"

  datatype Status = True | False | Unknown

  /** `time` is the last transition time; zero means that it is not set. */
  datatype Condition = Condition(
    kind: string, status: Status, reason: string, message: string, generation: int, time: nat)

  /** The wall clock, read once by each call that needs it. */
  type Clock = nat -> nat

  /******* meta.SetStatusCondition and its relatives *******/

  function Find(conditions: seq<Condition>, kind: string): Option<Condition> {
    if conditions == [] then None
    else if conditions[0].kind == kind then Some(conditions[0])
    else Find(conditions[1..], kind)
  }

  function Stamp(c: Condition, now: nat): Condition {
    if c.time == 0 then c.(time := now) else c
  }

  function Update(old_: Condition, c: Condition, now: nat): Condition {
    if old_.status == c.status then c.(time := old_.time) else Stamp(c, now)
  }

  function Set(conditions: seq<Condition>, c: Condition, now: nat): seq<Condition> {
    if conditions == [] then [Stamp(c, now)]
    else if conditions[0].kind == c.kind then [Update(conditions[0], c, now)] + conditions[1..]
    else [conditions[0]] + Set(conditions[1..], c, now)
  }

  function Remove(conditions: seq<Condition>, kind: string): seq<Condition> {
    if conditions == [] then []
    else if conditions[0].kind == kind then Remove(conditions[1..], kind)
    else [conditions[0]] + Remove(conditions[1..], kind)
  }

  ghost predicate UniqueKinds(conditions: seq<Condition>) {
    forall i, j :: 0 <= i < j < |conditions| ==> conditions[i].kind != conditions[j].kind
  }

  /** `c` says what the list already says. */
  predicate Agrees(conditions: seq<Condition>, c: Condition) {
    var found := Find(conditions, c.kind);
    found.Some? && found.value.(time := c.time) == c
  }

  lemma {:induction false} SetThenFind(conditions: seq<Condition>, c: Condition, now: nat, kind: string)
    ensures kind != c.kind ==> Find(Set(conditions, c, now), kind) == Find(conditions, kind)
    ensures Find(Set(conditions, c, now), c.kind) ==
      var old_ := Find(conditions, c.kind);
      Some(if old_.Some? then Update(old_.value, c, now) else Stamp(c, now))
  {
    if conditions != [] { SetThenFind(conditions[1..], c, now, kind); }
  }

  lemma {:induction false} SetWhatAgrees(conditions: seq<Condition>, c: Condition, now: nat)
    requires Agrees(conditions, c)
    ensures Set(conditions, c, now) == conditions
  {
    if conditions[0].kind != c.kind { SetWhatAgrees(conditions[1..], c, now); }
  }

  lemma {:induction false} FindIsMember(conditions: seq<Condition>, kind: string)
    ensures Find(conditions, kind).Some? <==> exists c :: c in conditions && c.kind == kind
    ensures Find(conditions, kind).Some? ==>
      Find(conditions, kind).value in conditions && Find(conditions, kind).value.kind == kind
  {
    if conditions != [] { FindIsMember(conditions[1..], kind); }
  }

  lemma {:induction false} SetKeepsUnique(conditions: seq<Condition>, c: Condition, now: nat)
    requires UniqueKinds(conditions)
    ensures UniqueKinds(Set(conditions, c, now))
    ensures forall d :: d in Set(conditions, c, now) ==> d.kind == c.kind || d in conditions
  {
    if conditions != [] && conditions[0].kind != c.kind {
      SetKeepsUnique(conditions[1..], c, now);
      var rest := Set(conditions[1..], c, now);
      assert forall i :: 0 <= i < |rest| ==> rest[i] in rest;
    }
  }

  /** In a list with unique kinds, Find returns the only condition of its kind. */
  lemma {:induction false} UniqueFind(conditions: seq<Condition>, c: Condition)
    requires UniqueKinds(conditions) && c in conditions
    ensures Find(conditions, c.kind) == Some(c)
  {
    if conditions[0] != c { UniqueFind(conditions[1..], c); }
  }

  /******* SyncConditions *******/

  /** The provider conditions other than Ready, set one after the other. */
  function Copied(conditions: seq<Condition>, provider: seq<Condition>, now: Clock): seq<Condition> {
    if provider == [] then conditions
    else
      var n := |provider| - 1;
      var before := Copied(conditions, provider[..n], now);
      if provider[n].kind == READY then before else Set(before, provider[n], now(n))
  }

  /** The last Ready condition of the provider. */
  function ProviderReady(provider: seq<Condition>): Option<Condition> {
    if provider == [] then None
    else if provider[|provider| - 1].kind == READY then Some(provider[|provider| - 1])
    else ProviderReady(provider[..|provider| - 1])
  }

  function NotReady(versionResolved: Option<Condition>, generation: int): Condition {
    if versionResolved.None? then
      Condition(READY, False, RESOLUTION_FAILED, "Version resolution status is unknown", generation, 0)
    else
      Condition(READY, False, versionResolved.value.reason,
                "Version resolution failed: " + versionResolved.value.message, generation, 0)
  }

  /** The Ready condition to set, if any. */
  function EffectiveReady(copied: seq<Condition>, provider: seq<Condition>, generation: int): Option<Condition> {
    var versionResolved := Find(copied, VERSION_RESOLVED);
    if versionResolved.Some? && versionResolved.value.status == True then ProviderReady(provider)
    else Some(NotReady(versionResolved, generation))
  }

  function Sync(conditions: seq<Condition>, provider: seq<Condition>, generation: int, now: Clock): seq<Condition> {
    var copied := Copied(conditions, provider, now);
    var ready := EffectiveReady(copied, provider, generation);
    if ready.None? then copied else Set(copied, ready.value, now(|provider|))
  }

  method SyncConditions(conditions: seq<Condition>, provider: seq<Condition>, generation: int, now: Clock)
      returns (result: seq<Condition>)
    ensures result == Sync(conditions, provider, generation, now)
  {
    result := conditions;
    var providerReady: Option<Condition> := None;
    for i := 0 to |provider|
      invariant result == Copied(conditions, provider[..i], now)
      invariant providerReady == ProviderReady(provider[..i])
    {
      var condition := provider[i];
      assert provider[..i + 1][..i] == provider[..i];
      if condition.kind == READY {
        providerReady := Some(condition);
        continue;
      }
      result := Set(result, condition, now(i));
    }
    assert provider[..|provider|] == provider;

    var versionResolved := Find(result, VERSION_RESOLVED);
    if versionResolved.Some? && versionResolved.value.status == True {
      if providerReady.Some? { result := Set(result, providerReady.value, now(|provider|)); }
      return;
    }
    var notReady := Condition(READY, False, RESOLUTION_FAILED, "Version resolution status is unknown", generation, 0);
    if versionResolved.Some? {
      notReady := notReady.(
        reason := versionResolved.value.reason,
        message := "Version resolution failed: " + versionResolved.value.message);
    }
    result := Set(result, notReady, now(|provider|));
  }

  /******* What it promises *******/

  lemma {:induction false} ProviderReadyIsReady(provider: seq<Condition>)
    ensures ProviderReady(provider).Some? ==> ProviderReady(provider).value.kind == READY
  {
    if provider != [] { ProviderReadyIsReady(provider[..|provider| - 1]); }
  }

  lemma {:induction false} CopiedKeepsUnique(conditions: seq<Condition>, provider: seq<Condition>, now: Clock)
    requires UniqueKinds(conditions)
    ensures UniqueKinds(Copied(conditions, provider, now))
  {
    if provider != [] {
      var n := |provider| - 1;
      CopiedKeepsUnique(conditions, provider[..n], now);
      SetKeepsUnique(Copied(conditions, provider[..n], now), provider[n], now(n));
    }
  }

  /** A condition of a kind that the provider does not have stays as it is. */
  lemma {:induction false} CopiedKeepsOthers(
      conditions: seq<Condition>, provider: seq<Condition>, now: Clock, kind: string)
    requires kind == READY || forall c :: c in provider ==> c.kind != kind
    ensures Find(Copied(conditions, provider, now), kind) == Find(conditions, kind)
  {
    if provider != [] {
      var n := |provider| - 1;
      CopiedKeepsOthers(conditions, provider[..n], now, kind);
      assert provider[n] in provider;
      if provider[n].kind != READY {
        SetThenFind(Copied(conditions, provider[..n], now), provider[n], now(n), kind);
      }
    }
  }

  /** The result is Ready only if its version is resolved, even where the provider reports on the version too. */
  lemma ReadyOnlyIfVersionResolved(
      conditions: seq<Condition>, provider: seq<Condition>, generation: int, now: Clock, ready: Condition)
    requires UniqueKinds(conditions)
    requires ready in Sync(conditions, provider, generation, now) && ready.kind == READY && ready.status == True
    ensures var found := Find(Sync(conditions, provider, generation, now), VERSION_RESOLVED);
      found.Some? && found.value.status == True
  {
    var copied := Copied(conditions, provider, now);
    CopiedKeepsUnique(conditions, provider, now);
    ProviderReadyIsReady(provider);
    var effective := EffectiveReady(copied, provider, generation);
    if effective.Some? {
      SetKeepsUnique(copied, effective.value, now(|provider|));
      SetThenFind(copied, effective.value, now(|provider|), VERSION_RESOLVED);
      UniqueFind(Sync(conditions, provider, generation, now), ready);
    }
  }

  /** The ignition controller's conditions stay untouched as long as the provider has none of those kinds. */
  lemma IgnitionConditionsAreUntouched(
      conditions: seq<Condition>, provider: seq<Condition>, generation: int, now: Clock, kind: string)
    requires kind == VERSION_RESOLVED || kind == SUPPORTED_VERSION_SKEW
    requires forall c :: c in provider ==> c.kind != kind
    ensures Find(Sync(conditions, provider, generation, now), kind) == Find(conditions, kind)
  {
    var copied := Copied(conditions, provider, now);
    CopiedKeepsOthers(conditions, provider, now, kind);
    ProviderReadyIsReady(provider);
    var effective := EffectiveReady(copied, provider, generation);
    if effective.Some? { SetThenFind(copied, effective.value, now(|provider|), kind); }
  }

  /******* One kind of condition on its way through the provider conditions *******/

  /** What becomes of the condition of one kind when the provider conditions are set one after the other. */
  function Track(start: Option<Condition>, provider: seq<Condition>, now: Clock, kind: string): Option<Condition> {
    if provider == [] then start
    else
      var n := |provider| - 1;
      var before := Track(start, provider[..n], now, kind);
      if provider[n].kind != kind then before else SetOnce(before, provider[n], now(n))
  }

  function SetOnce(start: Option<Condition>, c: Condition, now: nat): Option<Condition> {
    Some(if start.Some? then Update(start.value, c, now) else Stamp(c, now))
  }

  lemma {:induction false} FindCopied(conditions: seq<Condition>, provider: seq<Condition>, now: Clock, kind: string)
    requires kind != READY
    ensures Find(Copied(conditions, provider, now), kind) == Track(Find(conditions, kind), provider, now, kind)
  {
    if provider != [] {
      var n := |provider| - 1;
      FindCopied(conditions, provider[..n], now, kind);
      if provider[n].kind != READY {
        SetThenFind(Copied(conditions, provider[..n], now), provider[n], now(n), kind);
      }
    }
  }

  /** The last provider condition of a kind. */
  function Last(provider: seq<Condition>, kind: string): Option<Condition> {
    if provider == [] then None
    else if provider[|provider| - 1].kind == kind then Some(provider[|provider| - 1])
    else Last(provider[..|provider| - 1], kind)
  }

  /** Where the provider turns to the last status that it gives a kind; None if it gives that kind one status only. */
  function Turn(provider: seq<Condition>, kind: string): (at: Option<nat>)
    ensures at.Some? ==> at.value < |provider| && provider[at.value].kind == kind
  {
    if provider == [] then None
    else
      var n := |provider| - 1;
      var before := Last(provider[..n], kind);
      if provider[n].kind == kind && before.Some? && before.value.status != provider[n].status then Some(n)
      else Turn(provider[..n], kind)
  }

  /** The condition of a kind ends as the provider's last one, with the time of the turn or, without one, its own. */
  lemma {:induction false} TrackEnds(start: Option<Condition>, provider: seq<Condition>, now: Clock, kind: string)
    requires start.Some? ==> start.value.kind == kind
    ensures var last := Last(provider, kind); var turn := Turn(provider, kind);
      var end := Track(start, provider, now, kind);
      && (last.None? ==> turn.None? && end == start)
      && (last.Some? ==> last.value.kind == kind && end.Some? && end.value == last.value.(time := end.value.time))
      && (turn.Some? ==> end.value.time == Stamp(provider[turn.value], now(turn.value)).time)
      && (turn.None? && last.Some? && start.Some? && start.value.status == last.value.status ==>
            end.value.time == start.value.time)
  {
    if provider != [] { TrackEnds(start, provider[..|provider| - 1], now, kind); }
  }

  /** Where the provider gives a kind several statuses, it says since when the last one holds. */
  ghost predicate Restful(provider: seq<Condition>) {
    forall kind :: kind != READY && Turn(provider, kind).Some? ==> provider[Turn(provider, kind).value].time != 0
  }

  lemma TrackIsIdempotent(start: Option<Condition>, provider: seq<Condition>, kind: string, now: Clock, later: Clock)
    requires start.Some? ==> start.value.kind == kind
    requires Turn(provider, kind).Some? ==> provider[Turn(provider, kind).value].time != 0
    ensures var end := Track(start, provider, now, kind);
      (end.Some? ==> end.value.kind == kind) && Track(end, provider, later, kind) == end
  {
    var end := Track(start, provider, now, kind);
    TrackEnds(start, provider, now, kind);
    TrackEnds(end, provider, later, kind);
  }

  /** With unique kinds, or with every time set as the provider's schema demands, every provider is restful. */
  lemma UniqueOrTimedIsRestful(provider: seq<Condition>)
    requires UniqueKinds(provider) || forall c :: c in provider ==> c.time != 0
    ensures Restful(provider)
  {
    forall kind | Turn(provider, kind).Some? ensures provider[Turn(provider, kind).value].time != 0 {
      if UniqueKinds(provider) { UniqueKindsDoNotTurn(provider, kind); }
    }
  }

  lemma {:induction false} LastIsMember(provider: seq<Condition>, kind: string)
    ensures Last(provider, kind).Some? ==>
      exists i :: 0 <= i < |provider| && provider[i] == Last(provider, kind).value && provider[i].kind == kind
  {
    if provider != [] && provider[|provider| - 1].kind != kind {
      var init := provider[..|provider| - 1];
      LastIsMember(init, kind);
      assert forall i :: 0 <= i < |init| ==> init[i] == provider[i];
    }
  }

  lemma {:induction false} UniqueKindsDoNotTurn(provider: seq<Condition>, kind: string)
    requires UniqueKinds(provider)
    ensures Turn(provider, kind).None?
  {
    if provider != [] {
      var n := |provider| - 1;
      UniqueKindsDoNotTurn(provider[..n], kind);
      LastIsMember(provider[..n], kind);
    }
  }

  /** `i` is the place of the provider's last condition of a kind. */
  predicate IsLast(provider: seq<Condition>, kind: string, i: int) {
    0 <= i < |provider| && provider[i].kind == kind && forall j :: i < j < |provider| ==> provider[j].kind != kind
  }

  lemma {:induction false} LastMeans(provider: seq<Condition>, kind: string)
    ensures forall i :: IsLast(provider, kind, i) ==> Last(provider, kind) == Some(provider[i])
    ensures Last(provider, kind) == None <==> forall c :: c in provider ==> c.kind != kind
    ensures kind == READY ==> ProviderReady(provider) == Last(provider, kind)
  {
    if provider != [] {
      var n := |provider| - 1;
      LastMeans(provider[..n], kind);
      assert provider == provider[..n] + [provider[n]];
      forall i | IsLast(provider, kind, i) && i < n ensures IsLast(provider[..n], kind, i) {
      }
    }
  }

  /**
   What a sync makes of every kind but Ready: the provider's last condition of that kind, whose time is still the old
   one if the status is, and otherwise the provider's or the present; a kind that the provider lacks stays as it was.
   */
  lemma SyncCopiesTheProvider(
      conditions: seq<Condition>, provider: seq<Condition>, generation: int, now: Clock, kind: string)
    requires kind != "Ready"
    ensures var before := Find(conditions, kind);
      var after := Find(Sync(conditions, provider, generation, now), kind);
      && ((forall c :: c in provider ==> c.kind != kind) ==> after == before)
      && (forall i :: IsLast(provider, kind, i) ==>
            after.Some? && after.value.(time := provider[i].time) == provider[i])
      && (forall i :: IsLast(provider, kind, i) && (forall j :: 0 <= j < i ==> provider[j].kind != kind) ==>
            after.value.time ==
              if before.Some? && before.value.status == provider[i].status then before.value.time
              else if provider[i].time != 0 then provider[i].time else now(i))
  {
    FindSynced(conditions, provider, generation, now, kind);
    FindIsMember(conditions, kind);
    TrackEnds(Find(conditions, kind), provider, now, kind);
    LastMeans(provider, kind);
    forall i | IsLast(provider, kind, i) && (forall j :: 0 <= j < i ==> provider[j].kind != kind)
      ensures Track(Find(conditions, kind), provider, now, kind) == SetOnce(Find(conditions, kind), provider[i], now(i))
    {
      TrackOfTheOnlyOne(Find(conditions, kind), provider, now, kind, i);
    }
  }

  lemma TrackOfTheOnlyOne(start: Option<Condition>, provider: seq<Condition>, now: Clock, kind: string, i: nat)
    requires IsLast(provider, kind, i) && forall j :: 0 <= j < i ==> provider[j].kind != kind
    ensures Track(start, provider, now, kind) == SetOnce(start, provider[i], now(i))
  {
    TrackIgnoresOthers(start, provider, now, kind, i + 1);
    TrackIgnoresOthers(start, provider[..i], now, kind, 0);
    assert provider[..i + 1][..i] == provider[..i] && provider[..i][..0] == [];
  }

  lemma {:induction false} TrackIgnoresOthers(
      start: Option<Condition>, provider: seq<Condition>, now: Clock, kind: string, from: nat)
    requires from <= |provider| && forall j :: from <= j < |provider| ==> provider[j].kind != kind
    ensures Track(start, provider, now, kind) == Track(start, provider[..from], now, kind)
    decreases |provider|
  {
    if from < |provider| {
      var n := |provider| - 1;
      TrackIgnoresOthers(start, provider[..n], now, kind, from);
      assert provider[..n][..from] == provider[..from];
    } else {
      assert provider[..from] == provider;
    }
  }

  /**
   What a sync makes of Ready: once the version is resolved, the provider's last Ready condition, or what was there if
   the provider has none; until then not ready, for the reason why the version is not resolved.
   */
  lemma ReadyFollowsTheProvider(conditions: seq<Condition>, provider: seq<Condition>, generation: int, now: Clock)
    ensures var synced := Sync(conditions, provider, generation, now);
      var ready, version := Find(synced, "Ready"), Find(synced, "VersionResolved");
      if version.Some? && version.value.status == True then
        && ((forall c :: c in provider ==> c.kind != "Ready") ==> ready == Find(conditions, "Ready"))
        && (forall i :: IsLast(provider, "Ready", i) ==>
              ready.Some? && ready.value.(time := provider[i].time) == provider[i])
      else
        && ready.Some? && ready.value.status == False && ready.value.generation == generation
        && ready.value.reason == (if version.Some? then version.value.reason else "ResolutionFailed")
        && ready.value.message == (
             if version.Some? then "Version resolution failed: " + version.value.message
             else "Version resolution status is unknown")
  {
    var copied := Copied(conditions, provider, now);
    ProviderReadyIsReady(provider);
    LastMeans(provider, READY);
    CopiedKeepsOthers(conditions, provider, now, READY);
    var effective := EffectiveReady(copied, provider, generation);
    if effective.Some? {
      SetThenFind(copied, effective.value, now(|provider|), VERSION_RESOLVED);
      SetThenFind(copied, effective.value, now(|provider|), READY);
    }
  }

  /******* Lists that a sync leaves as they are *******/

  predicate IsFirst(conditions: seq<Condition>, i: nat)
    requires i < |conditions|
  {
    forall j :: 0 <= j < i ==> conditions[j].kind != conditions[i].kind
  }

  lemma {:induction false} FindAtFirst(conditions: seq<Condition>, i: nat)
    requires i < |conditions| && IsFirst(conditions, i)
    ensures Find(conditions, conditions[i].kind) == Some(conditions[i])
    decreases i
  {
    if i > 0 {
      var rest := conditions[1..];
      assert forall j :: 0 <= j < i - 1 ==> rest[j] == conditions[j + 1];
      assert IsFirst(rest, i - 1);
      FindAtFirst(rest, i - 1);
    }
  }

  /** `after` has the kinds of `before`, and differs at most in the first condition of a kind. */
  ghost predicate SameShape(before: seq<Condition>, after: seq<Condition>) {
    |after| == |before| && forall i :: 0 <= i < |before| ==>
      after[i].kind == before[i].kind && (IsFirst(before, i) || after[i] == before[i])
  }

  lemma {:induction false} SetKeepsShape(conditions: seq<Condition>, c: Condition, now: nat)
    requires Find(conditions, c.kind).Some?
    ensures SameShape(conditions, Set(conditions, c, now))
  {
    if conditions[0].kind != c.kind {
      var rest := conditions[1..];
      SetKeepsShape(rest, c, now);
      var after := Set(conditions, c, now);
      forall i | 0 <= i < |conditions|
        ensures after[i].kind == conditions[i].kind && (IsFirst(conditions, i) || after[i] == conditions[i])
      {
        if i > 0 && !IsFirst(conditions, i) { LaterIsUnchanged(conditions, c, now, i); }
      }
    }
  }

  lemma {:induction false} LaterIsUnchanged(conditions: seq<Condition>, c: Condition, now: nat, i: nat)
    requires i < |conditions| && !IsFirst(conditions, i) && Find(conditions, c.kind).Some?
    ensures i < |Set(conditions, c, now)| && Set(conditions, c, now)[i] == conditions[i]
    decreases i
  {
    if conditions[0].kind != c.kind && conditions[i].kind == c.kind {
      var rest := conditions[1..];
      var j :| 0 <= j < i && conditions[j].kind == conditions[i].kind;
      assert rest[j - 1].kind == rest[i - 1].kind;
      LaterIsUnchanged(rest, c, now, i - 1);
    } else if conditions[0].kind != c.kind {
      OtherKindIsUnchanged(conditions, c, now, i);
    }
  }

  lemma {:induction false} OtherKindIsUnchanged(conditions: seq<Condition>, c: Condition, now: nat, i: nat)
    requires i < |conditions| && conditions[i].kind != c.kind
    ensures i < |Set(conditions, c, now)| && Set(conditions, c, now)[i] == conditions[i]
    decreases i
  {
    if i > 0 && conditions[0].kind != c.kind { OtherKindIsUnchanged(conditions[1..], c, now, i - 1); }
  }

  lemma ShapesCompose(a: seq<Condition>, b: seq<Condition>, c: seq<Condition>)
    requires SameShape(a, b) && SameShape(b, c)
    ensures SameShape(a, c)
  {
    forall i | 0 <= i < |a| ensures c[i].kind == a[i].kind && (IsFirst(a, i) || c[i] == a[i]) {
      assert IsFirst(b, i) ==> IsFirst(a, i);
    }
  }

  /** Every kind the provider reports on, other than Ready, is there. */
  ghost predicate Present(conditions: seq<Condition>, provider: seq<Condition>) {
    forall c :: c in provider && c.kind != READY ==> Find(conditions, c.kind).Some?
  }

  lemma {:induction false} CopiedKeepsShape(conditions: seq<Condition>, provider: seq<Condition>, now: Clock)
    requires Present(conditions, provider)
    ensures SameShape(conditions, Copied(conditions, provider, now))
  {
    if provider != [] {
      var n := |provider| - 1;
      var before, c := Copied(conditions, provider[..n], now), provider[n];
      assert provider == provider[..n] + [c];
      CopiedKeepsShape(conditions, provider[..n], now);
      if c.kind != READY {
        FindCopied(conditions, provider[..n], now, c.kind);
        TrackStays(Find(conditions, c.kind), provider[..n], now, c.kind);
        SetKeepsShape(before, c, now(n));
        ShapesCompose(conditions, before, Set(before, c, now(n)));
      }
    }
  }

  lemma {:induction false} TrackStays(start: Option<Condition>, provider: seq<Condition>, now: Clock, kind: string)
    requires start.Some?
    ensures Track(start, provider, now, kind).Some?
  {
    if provider != [] { TrackStays(start, provider[..|provider| - 1], now, kind); }
  }

  lemma {:induction false} LastOfMember(provider: seq<Condition>, c: Condition)
    requires c in provider
    ensures Last(provider, c.kind).Some?
  {
    var n := |provider| - 1;
    if provider[n].kind != c.kind {
      assert provider == provider[..n] + [provider[n]];
      LastOfMember(provider[..n], c);
    }
  }

  /** Copying changes nothing in a list in which no kind moves any more. */
  lemma CopiedRests(conditions: seq<Condition>, provider: seq<Condition>, now: Clock)
    requires forall kind :: kind != READY ==>
      Track(Find(conditions, kind), provider, now, kind) == Find(conditions, kind)
    ensures Copied(conditions, provider, now) == conditions
  {
    forall c | c in provider && c.kind != READY ensures Find(conditions, c.kind).Some? {
      FindIsMember(conditions, c.kind);
      LastOfMember(provider, c);
      TrackEnds(Find(conditions, c.kind), provider, now, c.kind);
    }
    CopiedKeepsShape(conditions, provider, now);
    var copied := Copied(conditions, provider, now);
    forall i | 0 <= i < |conditions| ensures copied[i] == conditions[i] {
      if IsFirst(conditions, i) {
        FindAtFirst(conditions, i);
        FindAtFirst(copied, i);
        if conditions[i].kind == READY {
          CopiedKeepsOthers(conditions, provider, now, READY);
        } else {
          FindCopied(conditions, provider, now, conditions[i].kind);
        }
      }
    }
  }

  /** What a sync has made of each kind other than Ready is at rest for all later syncs. */
  lemma SyncedKindRests(
      conditions: seq<Condition>, provider: seq<Condition>, generation: int, now: Clock, later: Clock, kind: string)
    requires Restful(provider) && kind != READY
    ensures var found := Find(Sync(conditions, provider, generation, now), kind);
      Track(found, provider, later, kind) == found
  {
    FindSynced(conditions, provider, generation, now, kind);
    FindIsMember(conditions, kind);
    TrackIsIdempotent(Find(conditions, kind), provider, kind, now, later);
  }

  lemma FindSynced(conditions: seq<Condition>, provider: seq<Condition>, generation: int, now: Clock, kind: string)
    requires kind != READY
    ensures Find(Sync(conditions, provider, generation, now), kind)
         == Track(Find(conditions, kind), provider, now, kind)
  {
    var copied := Copied(conditions, provider, now);
    FindCopied(conditions, provider, now, kind);
    ProviderReadyIsReady(provider);
    var ready := EffectiveReady(copied, provider, generation);
    if ready.Some? { SetThenFind(copied, ready.value, now(|provider|), kind); }
  }

  /** Nothing is left to sync in a list in which no kind moves any more and Ready is the effective one. */
  lemma SyncOfSynced(conditions: seq<Condition>, provider: seq<Condition>, generation: int, now: Clock)
    requires forall kind :: kind != READY ==>
      Track(Find(conditions, kind), provider, now, kind) == Find(conditions, kind)
    requires var ready := EffectiveReady(conditions, provider, generation);
      ready.Some? ==> Agrees(conditions, ready.value)
    ensures Sync(conditions, provider, generation, now) == conditions
  {
    CopiedRests(conditions, provider, now);
    var ready := EffectiveReady(conditions, provider, generation);
    if ready.Some? { SetWhatAgrees(conditions, ready.value, now(|provider|)); }
  }

  /** In a synced list the effective Ready condition agrees. */
  lemma SyncedReadyAgrees(conditions: seq<Condition>, provider: seq<Condition>, generation: int, now: Clock)
    ensures var once := Sync(conditions, provider, generation, now);
      var ready := EffectiveReady(once, provider, generation); ready.Some? ==> Agrees(once, ready.value)
  {
    var copied := Copied(conditions, provider, now);
    ProviderReadyIsReady(provider);
    var ready := EffectiveReady(copied, provider, generation);
    if ready.Some? {
      SetThenFind(copied, ready.value, now(|provider|), VERSION_RESOLVED);
      SetThenFind(copied, ready.value, now(|provider|), READY);
    }
  }

  /**
   Syncing twice is syncing once, whatever the clock says the second time: with unchanged provider conditions the
   second sync leaves the list exactly as it is, so no status patch is sent.
   */
  lemma SyncIsIdempotent(
      conditions: seq<Condition>, provider: seq<Condition>, generation: int, now: Clock, later: Clock)
    requires Restful(provider)
    ensures var once := Sync(conditions, provider, generation, now);
      Sync(once, provider, generation, later) == once
  {
    var once := Sync(conditions, provider, generation, now);
    forall kind | kind != READY ensures Track(Find(once, kind), provider, later, kind) == Find(once, kind) {
      SyncedKindRests(conditions, provider, generation, now, later, kind);
    }
    SyncedReadyAgrees(conditions, provider, generation, now);
    SyncOfSynced(once, provider, generation, later);
  }

  /** A provider that turns a kind to a status without a time makes that time follow the clock on every sync. */
  lemma UntimedTurnFlaps(provider: seq<Condition>, kind: string) returns (now: Clock, later: Clock)
    requires kind != READY && Turn(provider, kind).Some? && provider[Turn(provider, kind).value].time == 0
    ensures var once := Sync([], provider, 0, now); Sync(once, provider, 0, later) != once
  {
    now, later := _ => 1, _ => 2;
    var once := Sync([], provider, 0, now);
    FindSynced([], provider, 0, now, kind);
    FindSynced(once, provider, 0, later, kind);
    TrackEnds(None, provider, now, kind);
    TrackEnds(Find(once, kind), provider, later, kind);
  }

  /**
   Exactly when the status loop comes to rest: syncing is idempotent for every list, generation and pair of clocks
   exactly when the provider, where it gives a kind several statuses, dates the turn to the last of them.
   */
  lemma SyncIsIdempotentIff(provider: seq<Condition>)
    ensures Restful(provider) <==>
      forall conditions, generation, now, later :: Resyncs(conditions, provider, generation, now, later)
  {
    if Restful(provider) {
      forall conditions, generation, now, later ensures Resyncs(conditions, provider, generation, now, later) {
        SyncIsIdempotent(conditions, provider, generation, now, later);
      }
    } else {
      var kind :| kind != READY && Turn(provider, kind).Some? && provider[Turn(provider, kind).value].time == 0;
      var now, later := UntimedTurnFlaps(provider, kind);
      assert !Resyncs([], provider, 0, now, later);
    }
  }

  predicate Resyncs(conditions: seq<Condition>, provider: seq<Condition>, generation: int, now: Clock, later: Clock) {
    var once := Sync(conditions, provider, generation, now);
    Sync(once, provider, generation, later) == once
  }

  /******* Transition times *******/

  /** An existing condition stays, and its transition time changes only with its status. */
  predicate TimeFollowsStatus(before: Option<Condition>, after: Option<Condition>) {
    before.Some? ==>
      after.Some? && (after.value.status == before.value.status ==> after.value.time == before.value.time)
  }

  /** A transition time changes only when the status does, for every kind that the provider gives one status. */
  lemma TransitionTimesFollowStatus(
      conditions: seq<Condition>, provider: seq<Condition>, generation: int, now: Clock, kind: string)
    requires kind == READY || Turn(provider, kind).None?
    ensures TimeFollowsStatus(Find(conditions, kind), Find(Sync(conditions, provider, generation, now), kind))
  {
    if kind == READY {
      ReadyTimeFollowsStatus(conditions, provider, generation, now);
    } else {
      FindSynced(conditions, provider, generation, now, kind);
      FindIsMember(conditions, kind);
      TrackEnds(Find(conditions, kind), provider, now, kind);
    }
  }

  lemma ReadyTimeFollowsStatus(conditions: seq<Condition>, provider: seq<Condition>, generation: int, now: Clock)
    ensures TimeFollowsStatus(Find(conditions, READY), Find(Sync(conditions, provider, generation, now), READY))
  {
    var copied := Copied(conditions, provider, now);
    CopiedKeepsOthers(conditions, provider, now, READY);
    ProviderReadyIsReady(provider);
    var effective := EffectiveReady(copied, provider, generation);
    if effective.Some? { SetThenFind(copied, effective.value, now(|provider|), READY); }
  }

  /** For a kind that the provider gives several statuses, some existing condition of the last status is redated. */
  lemma TransitionTimesFollowStatusIff(provider: seq<Condition>, kind: string, generation: int, now: Clock)
    requires kind != READY
    ensures Turn(provider, kind).None? <==> forall conditions ::
      TimeFollowsStatus(Find(conditions, kind), Find(Sync(conditions, provider, generation, now), kind))
  {
    if Turn(provider, kind).None? {
      forall conditions
        ensures TimeFollowsStatus(Find(conditions, kind), Find(Sync(conditions, provider, generation, now), kind))
      {
        TransitionTimesFollowStatus(conditions, provider, generation, now, kind);
      }
    } else {
      var turn := Turn(provider, kind).value;
      TrackEnds(None, provider, now, kind);
      var c := Last(provider, kind).value.(time := Stamp(provider[turn], now(turn)).time + 1);
      FindSynced([c], provider, generation, now, kind);
      TrackEnds(Some(c), provider, now, kind);
      assert Find([c], kind) == Some(c);
    }
  }
}
