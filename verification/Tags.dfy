/** Platform tags of the HostedControlPlane merged with those of an OpenshiftEC2NodeClass, and the conflict report. */
module Tags {
  import opened Wrappers
  import opened Listings

  type TagMap = map<string, string>

  /** `allow` is overridePolicy "Allow". */
  datatype PlatformTag = PlatformTag(key: string, value: string, allow: bool)

  /** One of Karpenter's restricted tag patterns. */
  type Pattern = string -> bool

  /******* Meaning of a platform tag list, in which a key may occur more than once *******/

  /** The first entry of a key, which the conflict report looks at. */
  function First(tags: seq<PlatformTag>, key: string): Option<PlatformTag> {
    if tags == [] then None
    else if tags[0].key == key then Some(tags[0])
    else First(tags[1..], key)
  }

  /** The values the merge starts from: the last entry of a key wins. */
  function PlatformValues(tags: seq<PlatformTag>): TagMap {
    if tags == [] then map[]
    else
      var last := tags[|tags| - 1];
      PlatformValues(tags[..|tags| - 1])[last.key := last.value]
  }

  /** The keys that some entry marks Allow. */
  function AllowedKeys(tags: seq<PlatformTag>): set<string> {
    set t | t in tags && t.allow :: t.key
  }

  /** `own` laid over `base`, where a key of `base` gives way only if it is allowed to. */
  function Overlay<K, V>(base: map<K, V>, allowed: set<K>, own: map<K, V>): map<K, V> {
    map k | k in base.Keys + own.Keys :: if k in base && (k !in own || k !in allowed) then base[k] else own[k]
  }

  function Merged(tags: seq<PlatformTag>, nodeTags: TagMap): TagMap {
    Overlay(PlatformValues(tags), AllowedKeys(tags), nodeTags)
  }

  predicate Restricted(patterns: seq<Pattern>, key: string) {
    exists i :: 0 <= i < |patterns| && patterns[i](key)
  }

  function Unrestricted(patterns: seq<Pattern>, tags: TagMap): TagMap {
    map k | k in tags && !Restricted(patterns, k) :: tags[k]
  }

  function TagsOf(platform: Option<seq<PlatformTag>>): seq<PlatformTag> {
    if platform.Some? then platform.value else []
  }

  function NodeTagsOf(nodeTags: Option<TagMap>): TagMap {
    if nodeTags.Some? then nodeTags.value else map[]
  }

  /** The tags of the EC2NodeClass; a NodeClass without tags and no platform tags to apply gives no map at all. */
  function FinalTags(
      patterns: seq<Pattern>, nodeTags: Option<TagMap>, platform: Option<seq<PlatformTag>>): Option<TagMap>
  {
    var filtered := Unrestricted(patterns, Merged(TagsOf(platform), NodeTagsOf(nodeTags)));
    if nodeTags.None? && filtered == map[] then None else Some(filtered)
  }

  /******* The loops *******/

  method MergePlatformTags(tags: seq<PlatformTag>) returns (merged: TagMap, allowOverride: set<string>)
    ensures merged == PlatformValues(tags) && allowOverride == AllowedKeys(tags)
  {
    merged, allowOverride := map[], {};
    for i := 0 to |tags|
      invariant merged == PlatformValues(tags[..i])
      invariant allowOverride == AllowedKeys(tags[..i])
    {
      assert tags[..i + 1] == tags[..i] + [tags[i]];
      merged := merged[tags[i].key := tags[i].value];
      if tags[i].allow { allowOverride := allowOverride + {tags[i].key}; }
    }
    assert tags[..|tags|] == tags;
  }

  lemma OverlayOneMore<K, V>(base: map<K, V>, allowed: set<K>, part: map<K, V>, k: K, v: V)
    requires k !in part
    ensures Overlay(base, allowed, part[k := v]) ==
      if k in Overlay(base, allowed, part) && k !in allowed then Overlay(base, allowed, part)
      else Overlay(base, allowed, part)[k := v]
  {
  }

  method OverlayNodeTags<K(==, !new), V>(base: map<K, V>, allowed: set<K>, own: map<K, V>) returns (merged: map<K, V>)
    ensures merged == Overlay(base, allowed, own)
  {
    var order := List(own.Keys);
    merged := base;
    ghost var part: map<K, V> := map[];
    for i := 0 to |order|
      invariant merged == Overlay(base, allowed, part)
      invariant forall k :: k in part <==> k in order[..i]
      invariant forall k :: k in part ==> k in own && part[k] == own[k]
    {
      var k := order[i];
      assert order[..i + 1] == order[..i] + [k] && k in order && k !in order[..i];
      OverlayOneMore(base, allowed, part, k, own[k]);
      part := part[k := own[k]];
      if k in merged && k !in allowed { continue; }
      merged := merged[k := own[k]];
    }
    assert order[..|order|] == order;
    assert part == own;
  }

  method MergeEC2NodeClassTags(patterns: seq<Pattern>, nodeTags: Option<TagMap>, platform: Option<seq<PlatformTag>>)
      returns (result: Option<TagMap>)
    ensures result == FinalTags(patterns, nodeTags, platform)
  {
    var tags, allowOverride := MergePlatformTags(TagsOf(platform));
    tags := OverlayNodeTags(tags, allowOverride, NodeTagsOf(nodeTags));
    var filteredTags, removedTags := FilterRestrictedTags(patterns, tags);
    if nodeTags.None? && |filteredTags| == 0 { return None; }
    return Some(filteredTags);
  }

  /** Filtering partitions the keys: a key is kept with its value exactly when no pattern restricts it. */
  method FilterRestrictedTags(patterns: seq<Pattern>, tags: TagMap) returns (filtered: TagMap, removed: seq<string>)
    ensures filtered == Unrestricted(patterns, tags)
    ensures forall k :: k in filtered <==> k in tags && forall i :: 0 <= i < |patterns| ==> !patterns[i](k)
    ensures IsListing(removed, tags.Keys - filtered.Keys)
  {
    filtered, removed := map[], [];
    var order := List(tags.Keys);
    for i := 0 to |order|
      invariant filtered == map k | k in order[..i] && !Restricted(patterns, k) :: tags[k]
      invariant forall k :: k in removed <==> k in order[..i] && Restricted(patterns, k)
      invariant forall a, b :: 0 <= a < b < |removed| ==> removed[a] != removed[b]
    {
      var key := order[i];
      assert order[..i + 1] == order[..i] + [key] && key in order && key !in order[..i];
      var isRestricted := MatchesAny(patterns, key);
      if isRestricted { removed := removed + [key]; } else { filtered := filtered[key := tags[key]]; }
    }
    assert order[..|order|] == order;
  }

  method MatchesAny(patterns: seq<Pattern>, key: string) returns (found: bool)
    ensures found <==> Restricted(patterns, key)
  {
    for i := 0 to |patterns|
      invariant forall j :: 0 <= j < i ==> !patterns[j](key)
    {
      if patterns[i](key) { return true; }
    }
    return false;
  }

  /** Which key gets which value: the platform's, unless only the NodeClass has the key or the platform allows it. */
  lemma TagRule(patterns: seq<Pattern>, nodeTags: Option<TagMap>, platform: Option<seq<PlatformTag>>, key: string)
    requires !Restricted(patterns, key)
    ensures
      var values := PlatformValues(TagsOf(platform)); var own := NodeTagsOf(nodeTags);
      var final := FinalTags(patterns, nodeTags, platform);
      && (key in values || key in own <==> final.Some? && key in final.value)
      && (key in values && (key !in own || key !in AllowedKeys(TagsOf(platform))) ==> final.value[key] == values[key])
      && (key in own && (key !in values || key in AllowedKeys(TagsOf(platform))) ==> final.value[key] == own[key])
  {
    var merged := Merged(TagsOf(platform), NodeTagsOf(nodeTags));
    assert key in merged ==> key in Unrestricted(patterns, merged);
  }

  /** `i` is the last entry of the key. */
  predicate IsLast(tags: seq<PlatformTag>, key: string, i: int) {
    0 <= i < |tags| && tags[i].key == key && forall j :: i < j < |tags| ==> tags[j].key != key
  }

  lemma {:induction false} LastEntryCounts(tags: seq<PlatformTag>, key: string)
    ensures key in PlatformValues(tags) <==> exists t :: t in tags && t.key == key
    ensures forall i :: IsLast(tags, key, i) ==>
      key in PlatformValues(tags) && PlatformValues(tags)[key] == tags[i].value
  {
    if tags != [] {
      var n := |tags| - 1;
      LastEntryCounts(tags[..n], key);
      assert tags == tags[..n] + [tags[n]];
      forall i | IsLast(tags, key, i) && i < n ensures IsLast(tags[..n], key, i) {
      }
    }
  }

  /**
   What becomes of each key, told by the entries of the platform list and the NodeClass tags alone: a restricted key is
   dropped; the NodeClass value counts where the platform has no entry or one that allows it, and else the value of the
   platform's last entry.
   */
  lemma FinalTagMeans(patterns: seq<Pattern>, tags: seq<PlatformTag>, own: TagMap, nodeTags: Option<TagMap>,
                      platform: Option<seq<PlatformTag>>, key: string)
    requires platform == Some(tags) || (platform == None && tags == [])
    requires nodeTags == Some(own) || (nodeTags == None && own == map[])
    ensures var final := FinalTags(patterns, nodeTags, platform);
      var value := if final.Some? && key in final.value then Some(final.value[key]) else None;
      if exists i :: 0 <= i < |patterns| && patterns[i](key) then value == None
      else if key in own
              && ((forall t :: t in tags ==> t.key != key) || exists t :: t in tags && t.key == key && t.allow) then
        value == Some(own[key])
      else
        && (value == None <==> forall t :: t in tags ==> t.key != key)
        && (forall i :: 0 <= i < |tags| && tags[i].key == key && (forall j :: i < j < |tags| ==> tags[j].key != key) ==>
              value == Some(tags[i].value))
  {
    var merged := Merged(tags, own);
    LastEntryCounts(tags, key);
    assert key in Unrestricted(patterns, merged) <==> key in merged && !Restricted(patterns, key);
    assert forall i :: 0 <= i < |tags| && tags[i].key == key && (forall j :: i < j < |tags| ==> tags[j].key != key) ==>
      IsLast(tags, key, i);
  }

  /** There is no map at all exactly when the NodeClass has none and every platform key is restricted. */
  lemma NoTagsAtAllIff(patterns: seq<Pattern>, tags: seq<PlatformTag>, nodeTags: Option<TagMap>,
                       platform: Option<seq<PlatformTag>>)
    requires platform == Some(tags) || (platform == None && tags == [])
    ensures FinalTags(patterns, nodeTags, platform) == None <==>
      nodeTags == None && forall t :: t in tags ==> exists i :: 0 <= i < |patterns| && patterns[i](t.key)
  {
    var filtered := Unrestricted(patterns, Merged(tags, NodeTagsOf(nodeTags)));
    forall t | t in tags ensures t.key in filtered <==> !Restricted(patterns, t.key) {
      ValueKeys(tags, t.key);
    }
    if nodeTags == None && filtered != map[] {
      var k :| k in filtered;
      ValueKeys(tags, k);
      var t :| t in tags && t.key == k;
      assert !Restricted(patterns, t.key);
    }
  }

  /******* The conflict report *******/

  datatype Report = NoReport | Counts(blocked: nat, overridden: nat)

  function ReportedBlocked(tags: seq<PlatformTag>, nodeTags: TagMap): set<string> {
    set k | k in nodeTags && First(tags, k).Some? && First(tags, k).value.value != nodeTags[k]
            && !First(tags, k).value.allow
  }

  function ReportedOverridden(tags: seq<PlatformTag>, nodeTags: TagMap): set<string> {
    set k | k in nodeTags && First(tags, k).Some? && First(tags, k).value.value != nodeTags[k]
            && First(tags, k).value.allow
  }

  /** The NodeClass tags whose value the merge does not use. */
  function Lost(tags: seq<PlatformTag>, nodeTags: TagMap): set<string> {
    set k | k in nodeTags && Merged(tags, nodeTags)[k] != nodeTags[k]
  }

  /** The platform tags whose value the merge replaces by a different one. */
  function Replaced(tags: seq<PlatformTag>, nodeTags: TagMap): set<string> {
    set k | k in PlatformValues(tags) && Merged(tags, nodeTags)[k] != PlatformValues(tags)[k]
  }

  method CountConflicts(nodeTags: Option<TagMap>, platform: Option<seq<PlatformTag>>) returns (report: Report)
    ensures report ==
      if TagsOf(platform) == [] || NodeTagsOf(nodeTags) == map[] then NoReport
      else Counts(|ReportedBlocked(TagsOf(platform), NodeTagsOf(nodeTags))|,
                  |ReportedOverridden(TagsOf(platform), NodeTagsOf(nodeTags))|)
  {
    var tags, own := TagsOf(platform), NodeTagsOf(nodeTags);
    if tags == [] || own == map[] { return NoReport; }
    var order := List(own.Keys);
    var blocked, overridden := 0, 0;
    ghost var blockedKeys, overriddenKeys := ReportedBlocked(tags, own), ReportedOverridden(tags, own);
    for i := 0 to |order|
      invariant blocked == CountIn(order[..i], blockedKeys)
      invariant overridden == CountIn(order[..i], overriddenKeys)
    {
      var k := order[i];
      assert order[..i + 1] == order[..i] + [k] && k in order;
      CountInAppends(order[..i], k, blockedKeys);
      CountInAppends(order[..i], k, overriddenKeys);
      var hcTag := FindTag(tags, k);
      if hcTag.None? || hcTag.value.value == own[k] { continue; }
      if hcTag.value.allow { overridden := overridden + 1; } else { blocked := blocked + 1; }
    }
    assert order[..|order|] == order;
    CountIsSize(order, own.Keys, blockedKeys);
    CountIsSize(order, own.Keys, overriddenKeys);
    return Counts(blocked, overridden);
  }

  method FindTag(tags: seq<PlatformTag>, key: string) returns (found: Option<PlatformTag>)
    ensures found == First(tags, key)
    ensures found == None <==> forall t :: t in tags ==> t.key != key
    ensures forall i :: 0 <= i < |tags| && tags[i].key == key && (forall j :: 0 <= j < i ==> tags[j].key != key) ==>
      found == Some(tags[i])
  {
    FirstIsFirst(tags, key);
    for i := 0 to |tags|
      invariant First(tags, key) == First(tags[i..], key)
    {
      if tags[i].key == key { return Some(tags[i]); }
    }
    return None;
  }

  lemma {:induction false} FirstIsFirst(tags: seq<PlatformTag>, key: string)
    ensures First(tags, key) == None <==> forall t :: t in tags ==> t.key != key
    ensures forall i :: 0 <= i < |tags| && tags[i].key == key && (forall j :: 0 <= j < i ==> tags[j].key != key) ==>
      First(tags, key) == Some(tags[i])
  {
    if tags != [] && tags[0].key != key {
      var rest := tags[1..];
      FirstIsFirst(rest, key);
      forall i | 0 <= i < |tags| && tags[i].key == key && (forall j :: 0 <= j < i ==> tags[j].key != key)
        ensures First(tags, key) == Some(tags[i])
      {
        assert rest[i - 1] == tags[i] && forall j :: 0 <= j < i - 1 ==> rest[j] == tags[j + 1];
      }
    }
  }

  /** The first entry of a key says what the whole list comes to: the last value, and whether any entry says Allow. */
  ghost predicate Coherent(tags: seq<PlatformTag>) {
    forall k :: First(tags, k).Some? ==>
      && k in PlatformValues(tags) && PlatformValues(tags)[k] == First(tags, k).value.value
      && (k in AllowedKeys(tags) <==> First(tags, k).value.allow)
  }

  lemma {:induction false} SameKeys(tags: seq<PlatformTag>, key: string)
    ensures First(tags, key).Some? <==> exists t :: t in tags && t.key == key
    ensures First(tags, key).Some? ==> First(tags, key).value in tags && First(tags, key).value.key == key
  {
    if tags != [] { SameKeys(tags[1..], key); }
  }

  lemma {:induction false} ValueKeys(tags: seq<PlatformTag>, key: string)
    ensures key in PlatformValues(tags) <==> exists t :: t in tags && t.key == key
    ensures key in PlatformValues(tags) ==>
      exists t :: t in tags && t.key == key && t.value == PlatformValues(tags)[key]
  {
    if tags != [] {
      var init, last := tags[..|tags| - 1], tags[|tags| - 1];
      assert tags == init + [last];
      ValueKeys(init, key);
    }
  }

  /** A NodeClass tag is reported where the first platform entry of its key has another value: blocked or overridden. */
  lemma ReportedMeans(tags: seq<PlatformTag>, own: TagMap, key: string)
    ensures key in ReportedBlocked(tags, own) <==>
      key in own && exists i ::
        && 0 <= i < |tags| && tags[i].key == key && (forall j :: 0 <= j < i ==> tags[j].key != key)
        && tags[i].value != own[key] && !tags[i].allow
    ensures key in ReportedOverridden(tags, own) <==>
      key in own && exists i ::
        && 0 <= i < |tags| && tags[i].key == key && (forall j :: 0 <= j < i ==> tags[j].key != key)
        && tags[i].value != own[key] && tags[i].allow
  {
    FirstIsFirst(tags, key);
    if First(tags, key).Some? {
      var i := FirstAt(tags, key);
      assert First(tags, key) == Some(tags[i]);
    }
  }

  lemma {:induction false} FirstAt(tags: seq<PlatformTag>, key: string) returns (i: nat)
    requires exists t :: t in tags && t.key == key
    ensures i < |tags| && tags[i].key == key && forall j :: 0 <= j < i ==> tags[j].key != key
  {
    i := 0;
    if tags[0].key != key {
      var rest := FirstAt(tags[1..], key);
      i := rest + 1;
    }
  }

  /** Lists with distinct keys are coherent. */
  lemma DistinctKeysAreCoherent(tags: seq<PlatformTag>)
    requires forall i, j :: 0 <= i < j < |tags| ==> tags[i].key != tags[j].key
    ensures Coherent(tags)
  {
    forall k | First(tags, k).Some?
      ensures k in PlatformValues(tags) && PlatformValues(tags)[k] == First(tags, k).value.value
      ensures k in AllowedKeys(tags) <==> First(tags, k).value.allow
    {
      SameKeys(tags, k);
      ValueKeys(tags, k);
    }
  }

  lemma CoherentReportIsExact(tags: seq<PlatformTag>, nodeTags: TagMap)
    requires Coherent(tags)
    ensures ReportedBlocked(tags, nodeTags) == Lost(tags, nodeTags)
    ensures ReportedOverridden(tags, nodeTags) == Replaced(tags, nodeTags)
  {
    forall k ensures First(tags, k).Some? <==> k in PlatformValues(tags) {
      SameKeys(tags, k);
      ValueKeys(tags, k);
    }
    forall k ensures k in ReportedBlocked(tags, nodeTags) <==> k in Lost(tags, nodeTags) {
    }
    forall k ensures k in ReportedOverridden(tags, nodeTags) <==> k in Replaced(tags, nodeTags) {
    }
  }

  /** The report counts exactly what the merge does to the tags, for every NodeClass. */
  ghost predicate ReportIsTrue(tags: seq<PlatformTag>) {
    forall own: TagMap ::
      |ReportedBlocked(tags, own)| == |Lost(tags, own)| && |ReportedOverridden(tags, own)| == |Replaced(tags, own)|
  }

  lemma IncoherentListHasAFalseReport(tags: seq<PlatformTag>, k: string) returns (own: TagMap)
    requires First(tags, k).Some?
    requires !(k in PlatformValues(tags) && PlatformValues(tags)[k] == First(tags, k).value.value
               && (k in AllowedKeys(tags) <==> First(tags, k).value.allow))
    ensures |ReportedBlocked(tags, own)| != |Lost(tags, own)|
         || |ReportedOverridden(tags, own)| != |Replaced(tags, own)|
  {
    SameKeys(tags, k);
    ValueKeys(tags, k);
    var first, value := First(tags, k).value, PlatformValues(tags)[k];
    own := map[k := if value != first.value then first.value else value + "x"];
    assert own[k] != value;
    var merged := Merged(tags, own);
    if value != first.value {
      assert ReportedBlocked(tags, own) == {} && ReportedOverridden(tags, own) == {};
      if k in AllowedKeys(tags) { assert k in Replaced(tags, own); } else { assert k in Lost(tags, own); }
    } else {
      assert !first.allow && k in AllowedKeys(tags);
      assert k in ReportedBlocked(tags, own);
      assert Lost(tags, own) == {};
    }
  }

  /**
   The conflict report looks at the first entry of a key, the merge at the last value and at any Allow. The two
   agree for every NodeClass exactly when the platform list is coherent, which distinct keys guarantee.
   */
  lemma ReportAgreesIffCoherent(tags: seq<PlatformTag>)
    ensures ReportIsTrue(tags) <==> Coherent(tags)
  {
    if Coherent(tags) {
      forall own: TagMap
        ensures |ReportedBlocked(tags, own)| == |Lost(tags, own)|
          && |ReportedOverridden(tags, own)| == |Replaced(tags, own)|
      {
        CoherentReportIsExact(tags, own);
      }
    } else {
      var k :| First(tags, k).Some? && !(k in PlatformValues(tags)
        && PlatformValues(tags)[k] == First(tags, k).value.value
        && (k in AllowedKeys(tags) <==> First(tags, k).value.allow));
      var own := IncoherentListHasAFalseReport(tags, k);
    }
  }
}
