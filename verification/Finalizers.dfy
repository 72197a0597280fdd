/** Finalizers, and the edits of finalizer lists by controllerutil, which every controller here uses. */
module Finalizers {

  /** A finalizer is a string: one of the three that the operator owns, or any other one. */
  datatype Finalizer = KarpenterFinalizer | EC2Finalizer | AzureFinalizer | OtherFinalizer(name: string)

  function Text(f: Finalizer): string {
    match f
    case KarpenterFinalizer => "hypershift.openshift.io/karpenter-finalizer"
    case EC2Finalizer => "hypershift.openshift.io/ec2-nodeclass-finalizer"
    case AzureFinalizer => "hypershift.openshift.io/azure-nodeclass-finalizer"
    case OtherFinalizer(name) => name
  }

  function AddFinalizer(finalizers: seq<Finalizer>, f: Finalizer): (result: seq<Finalizer>)
    ensures f in result && finalizers <= result
    ensures |result| == |finalizers| + if f in finalizers then 0 else 1
    ensures forall g :: g != f ==> (g in result <==> g in finalizers)
  {
    if f in finalizers then finalizers else finalizers + [f]
  }

  /** Drops every occurrence of `f` and nothing else. */
  function RemoveFinalizer(finalizers: seq<Finalizer>, f: Finalizer): (result: seq<Finalizer>)
    ensures f !in result
    ensures forall g :: g != f ==> multiset(result)[g] == multiset(finalizers)[g]
  {
    if finalizers == [] then []
    else
      assert finalizers == [finalizers[0]] + finalizers[1..];
      var rest := RemoveFinalizer(finalizers[1..], f);
      if finalizers[0] == f then rest else [finalizers[0]] + rest
  }

  /** Nothing is left exactly when there was no other finalizer. */
  lemma RemovesAllIffAlone(finalizers: seq<Finalizer>, f: Finalizer)
    ensures RemoveFinalizer(finalizers, f) == [] <==> forall g :: g in finalizers ==> g == f
  {
    var left := RemoveFinalizer(finalizers, f);
    assert forall g :: g in finalizers <==> g in multiset(finalizers);
    if left != [] { assert left[0] in left && left[0] in multiset(left); }
  }

  /** What is left keeps its order: removing works on each part of a list for itself. */
  lemma {:induction false} RemoveKeepsOrder(a: seq<Finalizer>, b: seq<Finalizer>, f: Finalizer)
    ensures RemoveFinalizer(a + b, f) == RemoveFinalizer(a, f) + RemoveFinalizer(b, f)
  {
    if a == [] {
      assert a + b == b;
    } else {
      var first, rest := a[0], a[1..];
      RemoveKeepsOrder(rest, b, f);
      Front(a, b);
      RemoveFromFront(first, rest + b, f);
      RemoveFromFront(first, rest, f);
      var x, y := RemoveFinalizer(rest, f), RemoveFinalizer(b, f);
      Assoc(first, x, y);
      assert RemoveFinalizer(a, f) == if first == f then x else [first] + x;
      assert RemoveFinalizer(a + b, f) == if first == f then x + y else [first] + (x + y);
    }
  }

  lemma Assoc<T>(t: T, x: seq<T>, y: seq<T>)
    ensures [t] + (x + y) == ([t] + x) + y
  {
  }

  lemma Front<T>(a: seq<T>, b: seq<T>)
    requires a != []
    ensures a + b == [a[0]] + (a[1..] + b) && a == [a[0]] + a[1..]
  {
  }

  lemma RemoveFromFront(first: Finalizer, rest: seq<Finalizer>, f: Finalizer)
    ensures RemoveFinalizer([first] + rest, f) ==
      if first == f then RemoveFinalizer(rest, f) else [first] + RemoveFinalizer(rest, f)
  {
    assert ([first] + rest)[1..] == rest;
  }

  /** Adding a finalizer that is absent and removing it again restores the list, order included. */
  lemma {:induction false} RemoveUndoesAdd(finalizers: seq<Finalizer>, f: Finalizer)
    requires f !in finalizers
    ensures RemoveFinalizer(AddFinalizer(finalizers, f), f) == finalizers
  {
    if finalizers != [] {
      RemoveUndoesAdd(finalizers[1..], f);
      assert (finalizers + [f])[1..] == finalizers[1..] + [f];
    }
  }

  /******* Values stand for strings *******/

  predicate Own(name: string) {
    name == Text(KarpenterFinalizer) || name == Text(EC2Finalizer) || name == Text(AzureFinalizer)
  }

  /** The value of a string is its own name if it is one of the three. */
  predicate Proper(f: Finalizer) {
    f.OtherFinalizer? ==> !Own(f.name)
  }

  lemma TextIsInjective(f: Finalizer, g: Finalizer)
    requires Proper(f) && Proper(g) && Text(f) == Text(g)
    ensures f == g
  {
    assert |Text(KarpenterFinalizer)| < |Text(EC2Finalizer)| < |Text(AzureFinalizer)|;
  }

  function Texts(finalizers: seq<Finalizer>): seq<string> {
    if finalizers == [] then [] else [Text(finalizers[0])] + Texts(finalizers[1..])
  }

  function WithoutText(texts: seq<string>, text: string): seq<string> {
    if texts == [] then []
    else (if texts[0] == text then [] else [texts[0]]) + WithoutText(texts[1..], text)
  }

  /** The edits of the lists of values are the edits of the lists of strings that the API servers store. */
  lemma {:induction false} EditsActOnTexts(finalizers: seq<Finalizer>, f: Finalizer)
    requires Proper(f) && forall g :: g in finalizers ==> Proper(g)
    ensures Texts(RemoveFinalizer(finalizers, f)) == WithoutText(Texts(finalizers), Text(f))
    ensures f in finalizers <==> Text(f) in Texts(finalizers)
  {
    if finalizers != [] {
      var first, rest := finalizers[0], finalizers[1..];
      assert finalizers == [first] + rest;
      EditsActOnTexts(rest, f);
      if Text(first) == Text(f) { TextIsInjective(first, f); }
      assert Texts(finalizers)[1..] == Texts(rest);
      assert Texts([first] + RemoveFinalizer(rest, f)) == [Text(first)] + Texts(RemoveFinalizer(rest, f)) by {
        assert ([first] + RemoveFinalizer(rest, f))[1..] == RemoveFinalizer(rest, f);
      }
    }
  }
}
