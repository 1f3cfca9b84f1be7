/**
 * What operation registration promises, proved on the specification functions
 * the provider's methods are verified against: which updates `Build` queues,
 * what each update appends and where, when the resource-scoped registration
 * throws, and the documents whole build passes produce.
 */
module OperationsCapabilityProperties {
  import opened Conformance
  import opened OperationsCapability

  // ---------------------------------------------------------------------------
  // Case-insensitive comparison and match counts
  // ---------------------------------------------------------------------------

  /** Ignoring case is an equivalence. */
  lemma EqualsIgnoreCaseIsEquivalence(a: string, b: string, c: string)
    ensures EqualsIgnoreCase(a, a)
    ensures EqualsIgnoreCase(a, b) ==> EqualsIgnoreCase(b, a)
    ensures EqualsIgnoreCase(a, b) && EqualsIgnoreCase(b, c) ==> EqualsIgnoreCase(a, c)
  {
  }

  /** Ignoring case is ordinal equality of the upper-cased strings, in both directions. */
  lemma EqualsIgnoreCaseIffUpper(a: string, b: string)
    ensures EqualsIgnoreCase(a, b) <==> Upper(a) == Upper(b)
  {
    if Upper(a) == Upper(b) {
      forall k | 0 <= k < |a|
        ensures FoldCase(a[k]) == FoldCase(b[k])
      {
        assert Upper(a)[k] == Upper(b)[k];
      }
    }
    if EqualsIgnoreCase(a, b) {
      assert forall k :: 0 <= k < |a| ==> Upper(a)[k] == Upper(b)[k];
    }
  }

  /** Appending a type adds one to the count exactly when it matches. */
  lemma {:induction false} CountMatchesAppend(types: seq<string>, x: string, t: string)
    ensures CountMatches(types + [x], t) == CountMatches(types, t) + (if EqualsIgnoreCase(x, t) then 1 else 0)
  {
    if types != [] {
      assert (types + [x])[1..] == types[1..] + [x];
      CountMatchesAppend(types[1..], x, t);
    }
  }

  /** No matching position: the count is zero. */
  lemma {:induction false} CountMatchesNone(types: seq<string>, t: string)
    requires forall k :: 0 <= k < |types| ==> !EqualsIgnoreCase(types[k], t)
    ensures CountMatches(types, t) == 0
  {
    if types != [] {
      assert forall k :: 0 <= k < |types| - 1 ==> types[1..][k] == types[k + 1];
      CountMatchesNone(types[1..], t);
    }
  }

  /** Exactly one matching position: the count is one. */
  lemma {:induction false} CountMatchesOne(types: seq<string>, i: nat, t: string)
    requires i < |types| && EqualsIgnoreCase(types[i], t)
    requires forall k :: 0 <= k < |types| && k != i ==> !EqualsIgnoreCase(types[k], t)
    ensures CountMatches(types, t) == 1
  {
    assert forall k :: 0 <= k < |types| - 1 ==> types[1..][k] == types[k + 1];
    if i == 0 {
      CountMatchesNone(types[1..], t);
    } else {
      CountMatchesOne(types[1..], i - 1, t);
    }
  }

  /** Counting matches by index: two distinct matching positions mean at least two matches. */
  lemma {:induction false} CountMatchesOfTwo(types: seq<string>, i: nat, j: nat, t: string)
    requires i < j < |types|
    requires EqualsIgnoreCase(types[i], t) && EqualsIgnoreCase(types[j], t)
    ensures CountMatches(types, t) >= 2
  {
    if i == 0 {
      var r := SingleOrDefault(types[1..], t);
      assert types[1..][j - 1] == types[j];
    } else {
      assert types[1..][i - 1] == types[i] && types[1..][j - 1] == types[j];
      CountMatchesOfTwo(types[1..], i - 1, j - 1, t);
    }
  }

  /** The types after a completed resource-scoped registration: the old ones, then one matching the type. */
  lemma TypesAfterResourceOperation(d: RestValue, e: OperationComponent, t: string)
    requires WithResourceOperation(d, e, t).Completed?
    ensures var types := TypesOf(WithResourceOperation(d, e, t).doc.resource);
      |types| == |d.resource| + 1 &&
      types[..|d.resource|] == TypesOf(d.resource) &&
      EqualsIgnoreCase(types[|d.resource|], t)
  {
    var types := TypesOf(WithResourceOperation(d, e, t).doc.resource);
    assert types[..|d.resource|] == TypesOf(d.resource);
  }

  // ---------------------------------------------------------------------------
  // The resource-scoped registration
  // ---------------------------------------------------------------------------

  /**
   * No component of the type exists: a new one is appended, typed as asked,
   * with the standard StructureDefinition profile and the new entry as its only
   * operation. Nothing else changes.
   */
  lemma ResourceOperationCreatesComponent(d: RestValue, e: OperationComponent, t: string)
    requires forall k :: 0 <= k < |d.resource| ==> !EqualsIgnoreCase(d.resource[k].resourceType, t)
    ensures var o := WithResourceOperation(d, e, t);
      o.Completed? &&
      o.doc.operation == d.operation &&
      o.doc.resource == d.resource + [ResourceValue(t, "http://hl7.org/fhir/StructureDefinition/" + t, [e])]
  {
    CountMatchesNone(TypesOf(d.resource), t);
  }

  /**
   * Exactly one component `i` matches: its operations are kept as a prefix and
   * the entry goes last, its type and profile stay, and the very same
   * component is appended once more at the end of the list. The server
   * operations and every other component are unchanged.
   */
  lemma ResourceOperationExtendsMatch(d: RestValue, e: OperationComponent, t: string, i: nat)
    requires i < |d.resource| && EqualsIgnoreCase(d.resource[i].resourceType, t)
    requires forall k :: 0 <= k < |d.resource| && k != i ==> !EqualsIgnoreCase(d.resource[k].resourceType, t)
    ensures var o := WithResourceOperation(d, e, t);
      var n := |d.resource|;
      o.Completed? &&
      o.doc.operation == d.operation &&
      |o.doc.resource| == n + 1 &&
      o.doc.resource[i] == o.doc.resource[n] &&
      o.doc.resource[n].resourceType == d.resource[i].resourceType &&
      o.doc.resource[n].profileReference == d.resource[i].profileReference &&
      o.doc.resource[n].operation == d.resource[i].operation + [e] &&
      (forall k :: 0 <= k < n && k != i ==> o.doc.resource[k] == d.resource[k])
  {
    CountMatchesOne(TypesOf(d.resource), i, t);
    assert EqualsIgnoreCase(TypesOf(d.resource)[i], t);
  }

  /** Two components match: `SingleOrDefault` throws and the document is left as it was. */
  lemma ResourceOperationThrowsOnTwoMatches(d: RestValue, e: OperationComponent, t: string, i: nat, j: nat)
    requires i < j < |d.resource|
    requires EqualsIgnoreCase(d.resource[i].resourceType, t) && EqualsIgnoreCase(d.resource[j].resourceType, t)
    ensures WithResourceOperation(d, e, t) == Threw(d)
  {
    CountMatchesOfTwo(TypesOf(d.resource), i, j, t);
  }

  /**
   * Every completed registration adds one component matching the type and
   * leaves the count of every type that does not match it as it was; it
   * throws exactly when two or more components already match.
   */
  lemma ResourceOperationCounts(d: RestValue, e: OperationComponent, t: string, u: string)
    ensures var o := WithResourceOperation(d, e, t);
      (o.Threw? <==> CountMatches(TypesOf(d.resource), t) >= 2) &&
      (o.Threw? ==> o.doc == d) &&
      (o.Completed? ==> CountMatches(TypesOf(o.doc.resource), t) == CountMatches(TypesOf(d.resource), t) + 1) &&
      (o.Completed? && !EqualsIgnoreCase(u, t) ==>
         CountMatches(TypesOf(o.doc.resource), u) == CountMatches(TypesOf(d.resource), u))
  {
    var o := WithResourceOperation(d, e, t);
    if o.Completed? {
      TypesAfterResourceOperation(d, e, t);
      var types := TypesOf(o.doc.resource);
      var n := |d.resource|;
      assert types == TypesOf(d.resource) + [types[n]];
      CountMatchesAppend(TypesOf(d.resource), types[n], t);
      CountMatchesAppend(TypesOf(d.resource), types[n], u);
      EqualsIgnoreCaseIsEquivalence(types[n], t, u);
      EqualsIgnoreCaseIsEquivalence(u, types[n], t);
    }
  }

  /**
   * Because the found component is re-added, registering against a type that
   * has no component yet works twice, leaves two components of that type, and
   * throws the third time.
   */
  lemma ThirdResourceOperationThrows(d: RestValue, e1: OperationComponent, e2: OperationComponent, e3: OperationComponent, t: string)
    requires CountMatches(TypesOf(d.resource), t) == 0
    ensures var o1 := WithResourceOperation(d, e1, t);
      var o2 := WithResourceOperation(o1.doc, e2, t);
      o1.Completed? && o2.Completed? &&
      CountMatches(TypesOf(o2.doc.resource), t) == 2 &&
      WithResourceOperation(o2.doc, e3, t) == Threw(o2.doc)
  {
    var o1 := WithResourceOperation(d, e1, t);
    ResourceOperationCounts(d, e1, t, t);
    ResourceOperationCounts(o1.doc, e2, t, t);
    ResourceOperationCounts(WithResourceOperation(o1.doc, e2, t).doc, e3, t, t);
  }

  /** A type that already has one component: the first registration duplicates it, the second throws. */
  lemma SecondResourceOperationThrows(d: RestValue, e1: OperationComponent, e2: OperationComponent, t: string)
    requires CountMatches(TypesOf(d.resource), t) == 1
    ensures var o1 := WithResourceOperation(d, e1, t);
      o1.Completed? &&
      CountMatches(TypesOf(o1.doc.resource), t) == 2 &&
      WithResourceOperation(o1.doc, e2, t) == Threw(o1.doc)
  {
    ResourceOperationCounts(d, e1, t, t);
    ResourceOperationCounts(WithResourceOperation(d, e1, t).doc, e2, t, t);
  }

  // ---------------------------------------------------------------------------
  // The three updates
  // ---------------------------------------------------------------------------

  /** Reindex appends reindex and then resource-reindex to the server operations and touches no resource. */
  lemma ReindexDetailsEffect(d: RestValue, resolve: string -> string)
    ensures AfterUpdate(d, ReindexDetails, resolve) ==
      Completed(RestValue(
        d.operation + [OperationComponent(Reindex, resolve(Reindex)), OperationComponent(ResourceReindex, resolve(ResourceReindex))],
        d.resource))
  {
  }

  /** Anonymized export appends one server operation and touches no resource. */
  lemma AnonymizedExportDetailsEffect(d: RestValue, resolve: string -> string)
    ensures AfterUpdate(d, AnonymizedExportDetails, resolve) ==
      Completed(RestValue(d.operation + [OperationComponent(AnonymizedExport, resolve(AnonymizedExport))], d.resource))
  {
  }

  lemma PatientIsNotGroup()
    ensures !EqualsIgnoreCase(Patient, Group) && !EqualsIgnoreCase(Group, Patient)
  {
  }

  /**
   * Export appends export to the server operations whatever happens next
   * (it runs before the lookups); it throws exactly when two components
   * already match Patient or two already match Group; otherwise it appends
   * a Patient component and then a Group component, whose last operations
   * are patient-export and group-export.
   */
  lemma ExportDetailsEffect(d: RestValue, resolve: string -> string)
    ensures var o := AfterUpdate(d, ExportDetails, resolve);
      var n := |d.resource|;
      o.doc.operation == d.operation + [OperationComponent(Export, resolve(Export))] &&
      (o.Threw? <==> CountMatches(TypesOf(d.resource), Patient) >= 2 || CountMatches(TypesOf(d.resource), Group) >= 2) &&
      (o.Completed? ==>
         |o.doc.resource| == n + 2 &&
         EqualsIgnoreCase(o.doc.resource[n].resourceType, Patient) &&
         EqualsIgnoreCase(o.doc.resource[n + 1].resourceType, Group) &&
         o.doc.resource[n].operation[|o.doc.resource[n].operation| - 1] == OperationComponent(PatientExport, resolve(PatientExport)) &&
         o.doc.resource[n + 1].operation[|o.doc.resource[n + 1].operation| - 1] == OperationComponent(GroupExport, resolve(GroupExport)))
  {
    var d1 := WithServerOperation(d, Entry(Export, resolve));
    var o2 := WithResourceOperation(d1, Entry(PatientExport, resolve), Patient);
    ResourceOperationCounts(d1, Entry(PatientExport, resolve), Patient, Group);
    PatientIsNotGroup();
    if o2.Completed? {
      var o3 := WithResourceOperation(o2.doc, Entry(GroupExport, resolve), Group);
      ResourceOperationCounts(o2.doc, Entry(GroupExport, resolve), Group, Group);
      ResourceOperationLastEntry(d1, Entry(PatientExport, resolve), Patient);
      ResourceOperationLastEntry(o2.doc, Entry(GroupExport, resolve), Group);
      if o3.Completed? {
        TypesAfterResourceOperation(d1, Entry(PatientExport, resolve), Patient);
        TypesAfterResourceOperation(o2.doc, Entry(GroupExport, resolve), Group);
        var n := |d.resource|;
        assert o3.doc.resource[n] == o2.doc.resource[n] by {
          ResourceOperationKeepsNonMatching(o2.doc, Entry(GroupExport, resolve), Group, n);
        }
      }
    }
  }

  /** The appended component ends with the new entry. */
  lemma ResourceOperationLastEntry(d: RestValue, e: OperationComponent, t: string)
    ensures var o := WithResourceOperation(d, e, t);
      o.Completed? ==>
        var c := o.doc.resource[|o.doc.resource| - 1];
        |o.doc.resource| == |d.resource| + 1 && |c.operation| > 0 && c.operation[|c.operation| - 1] == e
  {
  }

  /** A component whose type does not match is left as it was. */
  lemma ResourceOperationKeepsNonMatching(d: RestValue, e: OperationComponent, t: string, k: nat)
    requires k < |d.resource| && !EqualsIgnoreCase(d.resource[k].resourceType, t)
    ensures var o := WithResourceOperation(d, e, t);
      k < |o.doc.resource| && o.doc.resource[k] == d.resource[k]
  {
    assert TypesOf(d.resource)[k] == d.resource[k].resourceType;
  }

  // ---------------------------------------------------------------------------
  // Build passes
  // ---------------------------------------------------------------------------

  /** The server operations a configuration declares, in registration order. */
  function DeclaredServerOperations(exportEnabled: bool, reindexEnabled: bool, supportsAnonymizedExport: bool, resolve: string -> string): seq<OperationComponent> {
    ExportOperations(exportEnabled, resolve) + ReindexOperations(reindexEnabled, resolve) + AnonymizedExportOperations(supportsAnonymizedExport, resolve)
  }

  function ExportOperations(enabled: bool, resolve: string -> string): seq<OperationComponent> {
    if enabled then [OperationComponent(Export, resolve(Export))] else []
  }

  function ReindexOperations(enabled: bool, resolve: string -> string): seq<OperationComponent> {
    if enabled then [OperationComponent(Reindex, resolve(Reindex)), OperationComponent(ResourceReindex, resolve(ResourceReindex))] else []
  }

  function AnonymizedExportOperations(enabled: bool, resolve: string -> string): seq<OperationComponent> {
    if enabled then [OperationComponent(AnonymizedExport, resolve(AnonymizedExport))] else []
  }

  /** The resource components a configuration creates on a statement that has none for Patient or Group. */
  function DeclaredResources(exportEnabled: bool, resolve: string -> string): seq<ResourceValue> {
    if exportEnabled then
      [ResourceValue(Patient, "http://hl7.org/fhir/StructureDefinition/Patient", [OperationComponent(PatientExport, resolve(PatientExport))]),
       ResourceValue(Group, "http://hl7.org/fhir/StructureDefinition/Group", [OperationComponent(GroupExport, resolve(GroupExport))])]
    else []
  }

  /** Export on a statement with no Patient or Group component. */
  lemma ExportOnFreshTypes(d: RestValue, resolve: string -> string)
    requires CountMatches(TypesOf(d.resource), Patient) == 0 && CountMatches(TypesOf(d.resource), Group) == 0
    ensures AfterUpdate(d, ExportDetails, resolve) ==
      Completed(RestValue(d.operation + [OperationComponent(Export, resolve(Export))], d.resource + DeclaredResources(true, resolve)))
  {
    var d1 := WithServerOperation(d, Entry(Export, resolve));
    assert TypesOf(d1.resource) == TypesOf(d.resource);
    assert SingleOrDefault(TypesOf(d1.resource), Patient).NoMatch?;
    ResourceOperationCreatesComponent(d1, Entry(PatientExport, resolve), Patient);
    var d2 := WithResourceOperation(d1, Entry(PatientExport, resolve), Patient).doc;
    ResourceOperationCounts(d1, Entry(PatientExport, resolve), Patient, Group);
    PatientIsNotGroup();
    assert SingleOrDefault(TypesOf(d2.resource), Group).NoMatch?;
    ResourceOperationCreatesComponent(d2, Entry(GroupExport, resolve), Group);
    assert StructureDefinitionBase + Patient == "http://hl7.org/fhir/StructureDefinition/Patient";
    assert StructureDefinitionBase + Group == "http://hl7.org/fhir/StructureDefinition/Group";
    assert d.resource + DeclaredResources(true, resolve) ==
      d.resource + [DeclaredResources(true, resolve)[0]] + [DeclaredResources(true, resolve)[1]];
  }

  /** A queue with one more update: the extra update runs on what the queue left, unless it threw. */
  lemma AfterUpdatesSnoc(d: RestValue, us: seq<UpdateKind>, u: UpdateKind, resolve: string -> string)
    ensures AfterUpdates(d, us + [u], resolve) ==
      match AfterUpdates(d, us, resolve)
      case Threw(x) => Threw(x)
      case Completed(x) => AfterUpdate(x, u, resolve)
  {
    assert (us + [u])[..|us|] == us;
  }

  /**
   * A whole build pass on a statement with no Patient or Group component:
   * it never throws, the declared server operations are appended in the order
   * export, reindex, resource-reindex, anonymized-export (each only when its
   * feature is on), and export adds the Patient and Group components.
   */
  lemma BuildPass(d: RestValue, exportEnabled: bool, reindexEnabled: bool, supportsAnonymizedExport: bool, resolve: string -> string)
    requires CountMatches(TypesOf(d.resource), Patient) == 0 && CountMatches(TypesOf(d.resource), Group) == 0
    ensures AfterUpdates(d, QueuedUpdates(exportEnabled, reindexEnabled, supportsAnonymizedExport), resolve) ==
      Completed(RestValue(
        d.operation + DeclaredServerOperations(exportEnabled, reindexEnabled, supportsAnonymizedExport, resolve),
        d.resource + DeclaredResources(exportEnabled, resolve)))
  {
    var e := if exportEnabled then [ExportDetails] else [];
    var r := if reindexEnabled then [ReindexDetails] else [];
    var a := if supportsAnonymizedExport then [AnonymizedExportDetails] else [];
    assert QueuedUpdates(exportEnabled, reindexEnabled, supportsAnonymizedExport) == e + r + a;
    var d1 := ExportPart(d, exportEnabled, resolve);
    var d2 := ReindexPart(d, e, d1, reindexEnabled, resolve);
    if supportsAnonymizedExport {
      AfterUpdatesSnoc(d, e + r, AnonymizedExportDetails, resolve);
      AnonymizedExportDetailsEffect(d2, resolve);
    } else {
      assert e + r + a == e + r;
    }
    AppendAssociates(d.operation, ExportOperations(exportEnabled, resolve), ReindexOperations(reindexEnabled, resolve),
      AnonymizedExportOperations(supportsAnonymizedExport, resolve));
  }

  lemma AppendAssociates<T>(a: seq<T>, b: seq<T>, c: seq<T>, d: seq<T>)
    ensures a + b + c + d == a + (b + c + d)
  {
  }

  /** The export part of a build pass, and the document it leaves. */
  lemma ExportPart(d: RestValue, exportEnabled: bool, resolve: string -> string) returns (d1: RestValue)
    requires CountMatches(TypesOf(d.resource), Patient) == 0 && CountMatches(TypesOf(d.resource), Group) == 0
    ensures d1 == RestValue(d.operation + ExportOperations(exportEnabled, resolve), d.resource + DeclaredResources(exportEnabled, resolve))
    ensures AfterUpdates(d, if exportEnabled then [ExportDetails] else [], resolve) == Completed(d1)
  {
    d1 := RestValue(d.operation + ExportOperations(exportEnabled, resolve), d.resource + DeclaredResources(exportEnabled, resolve));
    if exportEnabled {
      AfterUpdatesSnoc(d, [], ExportDetails, resolve);
      ExportOnFreshTypes(d, resolve);
    } else {
      assert d1 == d;
    }
  }

  /** The reindex part of a build pass, after the export part left `d1`. */
  lemma ReindexPart(d: RestValue, e: seq<UpdateKind>, d1: RestValue, reindexEnabled: bool, resolve: string -> string) returns (d2: RestValue)
    requires AfterUpdates(d, e, resolve) == Completed(d1)
    ensures d2 == d1.(operation := d1.operation + ReindexOperations(reindexEnabled, resolve))
    ensures AfterUpdates(d, e + (if reindexEnabled then [ReindexDetails] else []), resolve) == Completed(d2)
  {
    d2 := d1.(operation := d1.operation + ReindexOperations(reindexEnabled, resolve));
    if reindexEnabled {
      AfterUpdatesSnoc(d, e, ReindexDetails, resolve);
      ReindexDetailsEffect(d1, resolve);
    } else {
      assert e + [] == e;
      assert d2 == d1;
    }
  }

  /** Each flag combination on a statement with no operations and no resource components. */
  lemma BuildPassOnEmptyStatement(exportEnabled: bool, reindexEnabled: bool, supportsAnonymizedExport: bool, resolve: string -> string)
    ensures var o := AfterUpdates(RestValue([], []), QueuedUpdates(exportEnabled, reindexEnabled, supportsAnonymizedExport), resolve);
      o.Completed? &&
      |o.doc.operation| == (if exportEnabled then 1 else 0) + (if reindexEnabled then 2 else 0) + (if supportsAnonymizedExport then 1 else 0) &&
      o.doc.resource == DeclaredResources(exportEnabled, resolve)
  {
    BuildPass(RestValue([], []), exportEnabled, reindexEnabled, supportsAnonymizedExport, resolve);
  }

  /**
   * A statement that already has one Patient and one Group component: export
   * still completes, and
   * leaves two entries for each of the two types.
   */
  lemma ExportDuplicatesExistingComponents(d: RestValue, resolve: string -> string)
    requires CountMatches(TypesOf(d.resource), Patient) == 1 && CountMatches(TypesOf(d.resource), Group) == 1
    ensures var o := AfterUpdate(d, ExportDetails, resolve);
      o.Completed? &&
      CountMatches(TypesOf(o.doc.resource), Patient) == 2 &&
      CountMatches(TypesOf(o.doc.resource), Group) == 2
  {
    var d1 := WithServerOperation(d, Entry(Export, resolve));
    assert TypesOf(d1.resource) == TypesOf(d.resource);
    var o2 := WithResourceOperation(d1, Entry(PatientExport, resolve), Patient);
    ResourceOperationCounts(d1, Entry(PatientExport, resolve), Patient, Group);
    PatientIsNotGroup();
    ResourceOperationCounts(o2.doc, Entry(GroupExport, resolve), Group, Patient);
  }
}
