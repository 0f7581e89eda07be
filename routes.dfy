/**
 * Route metadata as the gateway exposes it to the filters: a map from keys to
 * arbitrary objects, of which only the `allowedRoles` entry matters, and only
 * whether it is a list and which of its elements are strings.
 */
module Routes {

  /** An element of a metadata list: a String, or any other object (null included). */
  datatype Elem = Str(s: string) | NonString

  /** A metadata value: a java.util.List, or anything else. */
  datatype MetaValue = AList(elems: seq<Elem>) | NotAList

  type Metadata = map<string, MetaValue>

  const AllowedRolesKey: string := "allowedRoles"

  /** The role that opens a route to every caller. */
  const PublicRole: string := "PUBLIC"

  /** The stream `filter(String.class::isInstance).map(String.class::cast).toList()`:
      the string elements of a list, in their original order. */
  function StringElements(xs: seq<Elem>): (r: seq<string>)
    ensures |r| <= |xs|
    ensures forall s :: s in r <==> Str(s) in xs
  {
    if xs == [] then []
    else (if xs[0].Str? then [xs[0].s] else []) + StringElements(xs[1..])
  }

  /** Filtering distributes over concatenation, so the relative order of the
      strings is kept. */
  lemma {:induction false} StringElementsAppend(a: seq<Elem>, b: seq<Elem>)
    ensures StringElements(a + b) == StringElements(a) + StringElements(b)
  {
    if a == [] {
      assert a + b == b;
    } else {
      assert (a + b)[0] == a[0];
      assert (a + b)[1..] == a[1..] + b;
      StringElementsAppend(a[1..], b);
    }
  }

  /** A list made only of strings comes back whole, element by element. */
  lemma {:induction false} StringElementsKeepsStrings(xs: seq<Elem>)
    requires forall i :: 0 <= i < |xs| ==> xs[i].Str?
    ensures |StringElements(xs)| == |xs|
    ensures forall i :: 0 <= i < |xs| ==> StringElements(xs)[i] == xs[i].s
  {
    if xs != [] {
      StringElementsKeepsStrings(xs[1..]);
      assert StringElements(xs) == [xs[0].s] + StringElements(xs[1..]);
    }
  }

  /** A list with no string in it resolves to nothing. */
  lemma {:induction false} StringElementsDropsOthers(xs: seq<Elem>)
    requires forall i :: 0 <= i < |xs| ==> xs[i].NonString?
    ensures StringElements(xs) == []
  {
    if xs != [] {
      StringElementsDropsOthers(xs[1..]);
    }
  }
}
