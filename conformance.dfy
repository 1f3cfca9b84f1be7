/**
 * The part of a FHIR CapabilityStatement that operation registration touches:
 * the server `rest` component with its `operation` list and its `resource`
 * list, each resource component holding its own `operation` list.
 *
 * The components are objects that are changed in place, as the provider
 * changes the `Listed*Component` objects; `RestValue` and `ResourceValue` are their
 * values, which the specification functions of the operations module work on.
 */
module Conformance {

  /** `OperationComponent { Name, Definition }`. */
  datatype OperationComponent = OperationComponent(name: string, definition: string)

  /** The value of a resource component: `Type`, `Profile.Reference` and `Operation`. */
  datatype ResourceValue = ResourceValue(
    resourceType: string,
    profileReference: string,
    operation: seq<OperationComponent>)

  /** The value of the server rest component: its `Operation` and `Resource` lists. */
  datatype RestValue = RestValue(
    operation: seq<OperationComponent>,
    resource: seq<ResourceValue>)

  // ---------------------------------------------------------------------------
  // `string.Equals(a, b, StringComparison.OrdinalIgnoreCase)`
  // ---------------------------------------------------------------------------

  /** Upper-case mapping of one character, for the ASCII letters. */
  function FoldCase(c: char): char {
    if 'a' <= c <= 'z' then (c as int - 32) as char else c
  }

  /** The upper-cased string: every character folded. */
  function Upper(s: string): (u: string)
    ensures |u| == |s|
    ensures forall k :: 0 <= k < |s| ==> u[k] == FoldCase(s[k])
  {
    if s == [] then [] else [FoldCase(s[0])] + Upper(s[1..])
  }

  /** Ordinal comparison that ignores case: same length, same characters once folded. */
  predicate EqualsIgnoreCase(a: string, b: string): (r: bool)
    ensures a == b ==> r
    ensures r ==> |a| == |b|
    ensures r && a != [] ==> FoldCase(a[0]) == FoldCase(b[0])
  {
    |a| == |b| && forall k :: 0 <= k < |a| ==> FoldCase(a[k]) == FoldCase(b[k])
  }

  // ---------------------------------------------------------------------------
  // `Resource.SingleOrDefault(x => EqualsIgnoreCase(x.Type, resourceType))`
  // ---------------------------------------------------------------------------

  /** The number of entries of `types` equal to `t` ignoring case. */
  function CountMatches(types: seq<string>, t: string): (n: nat)
    ensures n <= |types|
  {
    if types == [] then 0
    else (if EqualsIgnoreCase(types[0], t) then 1 else 0) + CountMatches(types[1..], t)
  }

  /**
   * The three outcomes of `SingleOrDefault`: no element matches (the default,
   * `null`), exactly one matches (at `index`), or several match, in which case
   * `SingleOrDefault` throws an `InvalidOperationException`.
   */
  datatype Lookup = NoMatch | Match(index: nat) | MultipleMatches

  /** `SingleOrDefault` over the `Type`s of the resource components, in list order. */
  function SingleOrDefault(types: seq<string>, t: string): (r: Lookup)
    ensures r.NoMatch? <==> CountMatches(types, t) == 0
    ensures r.Match? <==> CountMatches(types, t) == 1
    ensures r.NoMatch? ==> forall k :: 0 <= k < |types| ==> !EqualsIgnoreCase(types[k], t)
    ensures r.Match? ==> r.index < |types| && EqualsIgnoreCase(types[r.index], t)
    ensures r.Match? ==> forall k :: 0 <= k < |types| && k != r.index ==> !EqualsIgnoreCase(types[k], t)
  {
    if types == [] then NoMatch
    else
      var rest := SingleOrDefault(types[1..], t);
      assert forall k :: 1 <= k < |types| ==> types[k] == types[1..][k - 1];
      if EqualsIgnoreCase(types[0], t) then
        (if rest.NoMatch? then Match(0) else MultipleMatches)
      else
        match rest
        case Match(i) => Match(i + 1)
        case _ => rest
  }

  /** The `Type` of every resource component value, in order. */
  function TypesOf(rs: seq<ResourceValue>): (ts: seq<string>)
    ensures |ts| == |rs|
    ensures forall k :: 0 <= k < |rs| ==> ts[k] == rs[k].resourceType
  {
    seq(|rs|, k requires 0 <= k < |rs| => rs[k].resourceType)
  }

  // ---------------------------------------------------------------------------
  // The components as objects
  // ---------------------------------------------------------------------------

  /** `ListedResourceComponent`. */
  class ListedResourceComponent {
    var resourceType: string
    var profileReference: string
    var operation: seq<OperationComponent>

    /** A new component of the given type and profile, with no operations yet. */
    constructor (resourceType: string, profileReference: string)
      ensures this.resourceType == resourceType
      ensures this.profileReference == profileReference
      ensures operation == []
    {
      this.resourceType := resourceType;
      this.profileReference := profileReference;
      operation := [];
    }

    /** The component's current value. */
    function Value(): ResourceValue
      reads this
    {
      ResourceValue(resourceType, profileReference, operation)
    }
  }

  /** The values of a list of resource components; an object listed twice gives its value twice. */
  function Values(rs: seq<ListedResourceComponent>): (vs: seq<ResourceValue>)
    reads rs
    ensures |vs| == |rs|
    ensures forall k :: 0 <= k < |rs| ==> vs[k] == rs[k].Value()
  {
    if rs == [] then [] else [rs[0].Value()] + Values(rs[1..])
  }

  /** Appending a component appends its value. */
  lemma ValuesSnoc(rs: seq<ListedResourceComponent>, c: ListedResourceComponent)
    ensures Values(rs + [c]) == Values(rs) + [c.Value()]
  {
    assert forall k :: 0 <= k < |rs| ==> (rs + [c])[k] == rs[k];
  }

  /** Components whose fields did not change keep their values. */
  twostate lemma ValuesUnchanged(rs: seq<ListedResourceComponent>)
    requires forall k :: 0 <= k < |rs| ==> unchanged(rs[k])
    ensures Values(rs) == old(Values(rs))
  {
  }

  /** `ListedRestComponent`, the server mode rest component (`Rest.Server()`). */
  class ListedRestComponent {
    var operation: seq<OperationComponent>
    var resource: seq<ListedResourceComponent>

    /** An empty rest component. */
    constructor ()
      ensures operation == [] && resource == []
    {
      operation := [];
      resource := [];
    }

    /** The value of the whole component. */
    function View(): RestValue
      reads this, resource
    {
      RestValue(operation, Values(resource))
    }
  }
}
