/** The conditions of an OpenshiftEC2NodeClass: those of the provider and the tag conflict condition. */
module EC2Status {
  import opened Wrappers
  import opened Tags
  import opened Conditions

  const TAG_CONFLICT := "AWSResourceTagConflict"

  /** The message text for a report; its wording does not matter here. */
  type Wording = Report -> string

  function ConflictCondition(report: Report, generation: int, wording: Wording): Condition
    requires report.Counts?
  {
    if report.blocked == 0 then Condition(TAG_CONFLICT, False, "NoTagConflict", wording(report), generation, 0)
    else Condition(TAG_CONFLICT, True, "TagConflictDetected", wording(report), generation, 0)
  }

  function SetConflict(
      conditions: seq<Condition>, report: Report, generation: int, wording: Wording, now: nat): seq<Condition>
  {
    if report.NoReport? then Remove(conditions, TAG_CONFLICT)
    else Set(conditions, ConflictCondition(report, generation, wording), now)
  }

  method SetAWSResourceTagConflictCondition(
      conditions: seq<Condition>, nodeTags: Option<TagMap>, platform: Option<seq<PlatformTag>>,
      generation: int, wording: Wording, now: nat)
      returns (result: seq<Condition>, ghost report: Report)
    ensures result == SetConflict(conditions, report, generation, wording, now)
    ensures report.NoReport? <==> TagsOf(platform) == [] || NodeTagsOf(nodeTags) == map[]
    ensures forall kind :: kind != TAG_CONFLICT ==> Find(result, kind) == Find(conditions, kind)
    ensures match Find(result, TAG_CONFLICT)
      case None => TagsOf(platform) == [] || NodeTagsOf(nodeTags) == map[]
      case Some(conflict) =>
        && TagsOf(platform) != [] && NodeTagsOf(nodeTags) != map[] && conflict.generation == generation
        && var blocked := ReportedBlocked(TagsOf(platform), NodeTagsOf(nodeTags)) != {};
           && conflict.status == (if blocked then Status.True else Status.False)
           && conflict.reason == (if blocked then "TagConflictDetected" else "NoTagConflict")
    ensures Coherent(TagsOf(platform)) ==>
      var conflict := Find(result, TAG_CONFLICT);
      conflict.Some? && conflict.value.status == True <==> Lost(TagsOf(platform), NodeTagsOf(nodeTags)) != {}
  {
    var counted := CountConflicts(nodeTags, platform);
    report := counted;
    ghost var tags, own := TagsOf(platform), NodeTagsOf(nodeTags);
    if Coherent(tags) { CoherentReportIsExact(tags, own); }
    if counted.NoReport? {
      result := Remove(conditions, TAG_CONFLICT);
      forall kind ensures Find(result, kind) == if kind == TAG_CONFLICT then None else Find(conditions, kind) {
        RemoveThenFind(conditions, TAG_CONFLICT, kind);
      }
      assert tags == [] ==> Lost(tags, own) == {};
      return;
    }
    var condition := ConflictCondition(counted, generation, wording);
    result := Set(conditions, condition, now);
    forall kind | kind != TAG_CONFLICT ensures Find(result, kind) == Find(conditions, kind) {
      SetThenFind(conditions, condition, now, kind);
    }
    assert ReportedBlocked(tags, own) != {} <==> |ReportedBlocked(tags, own)| > 0;
    SetThenFind(conditions, condition, now, TAG_CONFLICT);
    assert Lost(tags, own) != {} <==> |Lost(tags, own)| > 0;
  }

  lemma {:induction false} RemoveThenFind(conditions: seq<Condition>, kind: string, other: string)
    ensures Find(Remove(conditions, kind), other) == if other == kind then None else Find(conditions, other)
  {
    if conditions != [] { RemoveThenFind(conditions[1..], kind, other); }
  }

  lemma {:induction false} RemoveTwice(conditions: seq<Condition>, kind: string)
    ensures Remove(Remove(conditions, kind), kind) == Remove(conditions, kind)
  {
    if conditions != [] {
      RemoveTwice(conditions[1..], kind);
      var rest := Remove(conditions[1..], kind);
      assert ([conditions[0]] + rest)[1..] == rest;
    }
  }

  /** The conditions that one reconcile writes. */
  function EC2Conditions(
      conditions: seq<Condition>, provider: seq<Condition>, report: Report, generation: int, wording: Wording,
      now: Clock): seq<Condition>
  {
    SetConflict(Sync(conditions, provider, generation, now), report, generation, wording, now(|provider| + 1))
  }

  /**
   On an unchanged world the second reconcile computes exactly the conditions it finds, so the status loop of the
   EC2 controller comes to rest although every condition is set anew with the current time at hand.
   */
  lemma EC2ConditionsComeToRest(
      conditions: seq<Condition>, provider: seq<Condition>, report: Report, generation: int, wording: Wording,
      now: Clock, later: Clock)
    requires Restful(provider) && forall c :: c in provider ==> c.kind != TAG_CONFLICT
    ensures var once := EC2Conditions(conditions, provider, report, generation, wording, now);
      EC2Conditions(once, provider, report, generation, wording, later) == once
  {
    var synced := Sync(conditions, provider, generation, now);
    var once := EC2Conditions(conditions, provider, report, generation, wording, now);
    SyncedReadyAgrees(conditions, provider, generation, now);
    ProviderReadyIsReady(provider);
    forall kind | kind != TAG_CONFLICT ensures Find(once, kind) == Find(synced, kind) {
      if report.NoReport? { RemoveThenFind(synced, TAG_CONFLICT, kind); }
      else { SetThenFind(synced, ConflictCondition(report, generation, wording), now(|provider| + 1), kind); }
    }
    forall kind | kind != READY ensures Track(Find(once, kind), provider, later, kind) == Find(once, kind) {
      if kind == TAG_CONFLICT {
        FindIsMember(once, kind);
        LastIsMember(provider, kind);
        TrackEnds(Find(once, kind), provider, later, kind);
      } else {
        SyncedKindRests(conditions, provider, generation, now, later, kind);
      }
    }
    SyncOfSynced(once, provider, generation, later);
    if report.NoReport? {
      RemoveTwice(synced, TAG_CONFLICT);
    } else {
      var c := ConflictCondition(report, generation, wording);
      SetThenFind(synced, c, now(|provider| + 1), TAG_CONFLICT);
      SetWhatAgrees(once, c, later(|provider| + 1));
    }
  }
}
