/** The names by which a user data Secret and its NodeClass find each other. */
module UserDataSecret {
  import opened Wrappers
  import opened Listings

  const TOKEN_ANNOTATION := "hypershift.openshift.io/ignition-config"
  const NODE_POOL_ANNOTATION := "hypershift.openshift.io/nodePool"
  const KARPENTER_LABEL := "hypershift.openshift.io/managed-by-karpenter"
  const SUFFIX := "-karpenter"

  datatype Secret = Secret(
    namespace: string, name: string, labels: map<string, string>, annotations: map<string, string>)

  /** An absent annotation or label reads as the empty string. */
  function Get(m: map<string, string>, key: string): string {
    if key in m then m[key] else ""
  }

  predicate IsToken(s: Secret) {
    Get(s.annotations, TOKEN_ANNOTATION) == "true"
  }

  function NodePool(s: Secret): string {
    Get(s.annotations, NODE_POOL_ANNOTATION)
  }

  /** What the list call returns: the Karpenter Secrets of the namespace. */
  predicate Listed(s: Secret, namespace: string) {
    s.namespace == namespace && KARPENTER_LABEL in s.labels && s.labels[KARPENTER_LABEL] == "true"
  }

  function KarpenterNodePoolName(nodeClassName: string): string {
    nodeClassName + SUFFIX
  }

  /** The text form of an object key. */
  function KeyString(namespace: string, name: string): string {
    namespace + "/" + name
  }

  predicate Selects(namespace: string, nodeClassName: string, s: Secret) {
    NodePool(s) == KeyString(namespace, KarpenterNodePoolName(nodeClassName)) && !IsToken(s)
  }

  /** The stored Secrets that the lookup is after. */
  function Wanted(store: set<Secret>, namespace: string, nodeClassName: string): set<Secret> {
    set s | s in store && Listed(s, namespace) && Selects(namespace, nodeClassName, s)
  }

  /******* From the Secret back to the NodeClass *******/

  function IndexOf(s: string, c: char): (at: int)
    ensures -1 <= at < |s|
    ensures at >= 0 ==> s[at] == c && forall k :: 0 <= k < at ==> s[k] != c
    ensures at < 0 ==> forall k :: 0 <= k < |s| ==> s[k] != c
  {
    if s == [] then -1
    else if s[0] == c then 0
    else
      var at := IndexOf(s[1..], c);
      if at < 0 then -1 else at + 1
  }

  /** The part behind the first slash, empty without a slash. */
  function AfterSlash(s: string): string {
    var at := IndexOf(s, '/');
    if at < 0 then "" else s[at + 1..]
  }

  function CutSuffix(s: string, suffix: string): Option<string> {
    if |s| >= |suffix| && s[|s| - |suffix|..] == suffix then Some(s[..|s| - |suffix|]) else None
  }

  /** The NodeClasses that an event on a Secret enqueues. */
  function MapToNodeClass(s: Secret): seq<string> {
    if IsToken(s) then []
    else
      match CutSuffix(AfterSlash(NodePool(s)), SUFFIX)
      case None => []
      case Some(nodeClassName) => [nodeClassName]
  }

  lemma CutSuffixUndoesAppend(s: string, name: string)
    ensures CutSuffix(s, SUFFIX) == Some(name) <==> s == name + SUFFIX
  {
    if CutSuffix(s, SUFFIX) == Some(name) { assert s == s[..|s| - |SUFFIX|] + s[|s| - |SUFFIX|..]; }
    if s == name + SUFFIX { assert s[..|s| - |SUFFIX|] == name; }
  }

  lemma AfterSlashUndoesKey(s: string, namespace: string, name: string)
    requires '/' !in namespace
    ensures s == KeyString(namespace, name) <==> namespace + "/" <= s && AfterSlash(s) == name
  {
    var n := |namespace|;
    if namespace + "/" <= s {
      assert s[n] == '/';
      assert forall k :: 0 <= k < n ==> s[k] == namespace[k];
      assert IndexOf(s, '/') == n;
      assert s == namespace + "/" + s[n + 1..];
    }
    if s == KeyString(namespace, name) {
      assert s[..n + 1] == namespace + "/";
      assert s[n + 1..] == name;
    }
  }

  /**
   The two directions agree. A Secret is selected for a NodeClass exactly when it is mapped back to that NodeClass and
   its annotation names the namespace; the name may contain anything, also a slash or the suffix itself.
   */
  lemma SelectedIffMappedBack(s: Secret, namespace: string, nodeClassName: string)
    requires '/' !in namespace
    ensures Selects(namespace, nodeClassName, s) <==>
      MapToNodeClass(s) == [nodeClassName] && namespace + "/" <= NodePool(s)
  {
    AfterSlashUndoesKey(NodePool(s), namespace, KarpenterNodePoolName(nodeClassName));
    CutSuffixUndoesAppend(AfterSlash(NodePool(s)), nodeClassName);
  }

  /** No Secret belongs to two NodeClasses. */
  lemma SelectedOnce(s: Secret, namespace: string, a: string, b: string)
    requires Selects(namespace, a, s) && Selects(namespace, b, s)
    ensures a == b
  {
    var prefix := namespace + "/";
    assert NodePool(s) == prefix + (a + SUFFIX) == prefix + (b + SUFFIX);
    assert a == NodePool(s)[|prefix|..|NodePool(s)| - |SUFFIX|];
    assert b == NodePool(s)[|prefix|..|NodePool(s)| - |SUFFIX|];
  }

  /** Two namespaces do not share a Secret either, as long as their names hold no slash. */
  lemma SelectedInOneNamespace(s: Secret, m: string, n: string, a: string, b: string)
    requires '/' !in m && '/' !in n && Selects(m, a, s) && Selects(n, b, s)
    ensures m == n && a == b
  {
    SelectedIffMappedBack(s, m, a);
    SelectedIffMappedBack(s, n, b);
    AfterSlashUndoesKey(NodePool(s), m, a + SUFFIX);
    AfterSlashUndoesKey(NodePool(s), n, b + SUFFIX);
    assert NodePool(s)[|m|] == '/' && NodePool(s)[|n|] == '/';
    assert m == NodePool(s)[..|m|] && n == NodePool(s)[..|n|];
    assert |m| == |n| by {
      assert forall k :: 0 <= k < |m| ==> NodePool(s)[k] == m[k];
      assert forall k :: 0 <= k < |n| ==> NodePool(s)[k] == n[k];
    }
  }

  /******* The lookup *******/

  datatype LookupError = ListFailed | NotFound | Ambiguous(count: nat)

  lemma OneListed<T(!new)>(order: seq<T>, names: set<T>)
    requires IsListing(order, names)
    ensures |order| == |names|
    ensures |order| == 1 ==> names == {order[0]}
  {
    ListingLength(order, names);
    if |order| == 1 {
      assert order[0] in order;
      assert forall n :: n in order ==> n == order[0];
    }
  }

  /**
   The lookup over what the list call returns for the stored Secrets: it succeeds exactly when one Secret is wanted,
   with that Secret, and otherwise tells none from several.
   */
  method GetUserDataSecret(secrets: seq<Secret>, failed: bool, namespace: string, nodeClassName: string,
                           ghost store: set<Secret>) returns (r: Result<Secret, LookupError>)
    requires !failed ==> IsListing(secrets, set s | s in store && Listed(s, namespace))
    ensures failed <==> r == Err(ListFailed)
    ensures !failed ==> (forall s :: r == Ok(s) <==> Wanted(store, namespace, nodeClassName) == {s})
    ensures !failed ==> (r == Err(NotFound) <==> Wanted(store, namespace, nodeClassName) == {})
    ensures r.Err? && r.error.Ambiguous? ==> r.error.count == |Wanted(store, namespace, nodeClassName)| > 1
  {
    if failed { return Err(ListFailed); }
    var expected := KeyString(namespace, KarpenterNodePoolName(nodeClassName));
    var matches := [];
    for i := 0 to |secrets|
      invariant IsListing(matches, set s | s in secrets[..i] && Selects(namespace, nodeClassName, s))
    {
      assert secrets[..i + 1] == secrets[..i] + [secrets[i]];
      assert secrets[i] !in secrets[..i];
      ghost var before := set s | s in secrets[..i] && Selects(namespace, nodeClassName, s);
      ghost var after := set s | s in secrets[..i + 1] && Selects(namespace, nodeClassName, s);
      assert after == if Selects(namespace, nodeClassName, secrets[i]) then before + {secrets[i]} else before;
      if NodePool(secrets[i]) == expected && !IsToken(secrets[i]) {
        ExtendListing(matches, before, secrets[i]);
        matches := matches + [secrets[i]];
      }
    }
    assert secrets[..|secrets|] == secrets;
    assert IsListing(matches, Wanted(store, namespace, nodeClassName));
    OneListed(matches, Wanted(store, namespace, nodeClassName));
    if |matches| == 0 { return Err(NotFound); }
    if |matches| == 1 { return Ok(matches[0]); }
    return Err(Ambiguous(|matches|));
  }

  /** The wanted Secrets: labelled for Karpenter, annotated with the NodePool of the NodeClass, and no token Secrets. */
  lemma WantedMeans(store: set<Secret>, namespace: string, nodeClassName: string, s: Secret)
    ensures var token, pool := "hypershift.openshift.io/ignition-config", "hypershift.openshift.io/nodePool";
      var managed := "hypershift.openshift.io/managed-by-karpenter";
      s in Wanted(store, namespace, nodeClassName) <==>
        && s in store && s.namespace == namespace
        && managed in s.labels && s.labels[managed] == "true"
        && pool in s.annotations && s.annotations[pool] == namespace + "/" + nodeClassName + "-karpenter"
        && !(token in s.annotations && s.annotations[token] == "true")
  {
    assert namespace + "/" + nodeClassName + "-karpenter" == namespace + "/" + (nodeClassName + "-karpenter");
  }

  /** An event on a token Secret enqueues nothing. */
  lemma TokenSecretsEnqueueNothing(s: Secret)
    requires "hypershift.openshift.io/ignition-config" in s.annotations
    requires s.annotations["hypershift.openshift.io/ignition-config"] == "true"
    ensures MapToNodeClass(s) == []
  {
  }

  /** The round trip: a Secret that the lookup returns enqueues that NodeClass, and is found for no other. */
  lemma FoundSecretMapsBack(store: set<Secret>, namespace: string, nodeClassName: string, s: Secret)
    requires '/' !in namespace && Wanted(store, namespace, nodeClassName) == {s}
    ensures s in store && MapToNodeClass(s) == [nodeClassName]
    ensures forall other :: s in Wanted(store, namespace, other) ==> other == nodeClassName
  {
    assert s in Wanted(store, namespace, nodeClassName);
    SelectedIffMappedBack(s, namespace, nodeClassName);
    forall other | s in Wanted(store, namespace, other) ensures other == nodeClassName {
      SelectedOnce(s, namespace, nodeClassName, other);
    }
  }

  /** What the watch lets through is what can be found: every Secret that is wanted for some NodeClass enqueues it. */
  lemma EveryWantedSecretEnqueues(store: set<Secret>, namespace: string, nodeClassName: string)
    requires '/' !in namespace
    ensures forall s :: s in Wanted(store, namespace, nodeClassName) <==>
      s in store && Listed(s, namespace) && namespace + "/" <= NodePool(s) && MapToNodeClass(s) == [nodeClassName]
  {
    forall s ensures Selects(namespace, nodeClassName, s) <==>
        MapToNodeClass(s) == [nodeClassName] && namespace + "/" <= NodePool(s) {
      SelectedIffMappedBack(s, namespace, nodeClassName);
    }
  }
}
