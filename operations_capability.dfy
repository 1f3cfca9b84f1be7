/**
 * `OperationsCapabilityProvider`: registers the server's operations in the
 * capability statement. `Build` queues one document update per enabled
 * feature on the capability statement builder; each update appends operation
 * entries to the server `rest` component or to the resource component of a
 * resource type, found case-insensitively or created.
 *
 * The functions `WithServerOperation`, `WithResourceOperation`, `AfterUpdate`
 * and `AfterUpdates` say on values what the methods do to the objects; the
 * methods are proved against them and the properties module proves what
 * they promise.
 */
module OperationsCapability {
  import opened Conformance

  // Operation names (`OperationsConstants`) and resource types (`KnownResourceTypes`).
  const Export := "export"
  const PatientExport := "patient-export"
  const GroupExport := "group-export"
  const AnonymizedExport := "anonymized-export"
  const Reindex := "reindex"
  const ResourceReindex := "resource-reindex"
  const Patient := "Patient"
  const Group := "Group"

  const StructureDefinitionBase := "http://hl7.org/fhir/StructureDefinition/"

  /** The profile reference synthesised for a resource component that did not exist yet. */
  function DefaultProfile(resourceType: string): (p: string)
    ensures |p| == |StructureDefinitionBase| + |resourceType|
    ensures p[..|StructureDefinitionBase|] == StructureDefinitionBase
    ensures p[|StructureDefinitionBase|..] == resourceType
  {
    StructureDefinitionBase + resourceType
  }

  /** The entry registered for an operation: its name and its resolved definition URL. */
  function Entry(operationType: string, resolve: string -> string): OperationComponent {
    OperationComponent(operationType, resolve(operationType))
  }

  /**
   * What a document update leaves behind: the document after it ran to the
   * end, or the document at the moment an exception escaped it. Updates that
   * ran before the exception keep their effect.
   */
  datatype Outcome = Completed(doc: RestValue) | Threw(doc: RestValue)

  /** Appending an entry to the server-level operation list. */
  function WithServerOperation(d: RestValue, entry: OperationComponent): (r: RestValue)
    ensures |r.operation| == |d.operation| + 1
    ensures r.operation[..|d.operation|] == d.operation && r.operation[|d.operation|] == entry
    ensures r.resource == d.resource
  {
    d.(operation := d.operation + [entry])
  }

  /** A resource component value with one more entry at the end of its operation list. */
  function Extended(c: ResourceValue, entry: OperationComponent): ResourceValue {
    c.(operation := c.operation + [entry])
  }

  /**
   * The resource-scoped registration: look the type up with `SingleOrDefault`;
   * throw if several components match; otherwise append the entry to the
   * matching component, or to a new one, and append that component to the
   * resource list, in both cases.
   */
  function WithResourceOperation(d: RestValue, entry: OperationComponent, resourceType: string): (o: Outcome)
    ensures o.Threw? <==> CountMatches(TypesOf(d.resource), resourceType) >= 2
    ensures o.Threw? ==> o.doc == d
    ensures o.doc.operation == d.operation
    ensures o.Completed? ==>
      var n := |d.resource|;
      |o.doc.resource| == n + 1 &&
      EqualsIgnoreCase(o.doc.resource[n].resourceType, resourceType) &&
      o.doc.resource[n].operation != [] &&
      o.doc.resource[n].operation[|o.doc.resource[n].operation| - 1] == entry
  {
    match SingleOrDefault(TypesOf(d.resource), resourceType)
    case NoMatch =>
      Completed(d.(resource := d.resource + [ResourceValue(resourceType, DefaultProfile(resourceType), [entry])]))
    case Match(i) =>
      var c := Extended(d.resource[i], entry);
      Completed(d.(resource := d.resource[i := c] + [c]))
    case MultipleMatches =>
      Threw(d)
  }

  /** The document updates the provider can queue, named after the methods they stand for. */
  datatype UpdateKind = ExportDetails | ReindexDetails | AnonymizedExportDetails

  /** The effect of one queued update. */
  function AfterUpdate(d: RestValue, u: UpdateKind, resolve: string -> string): (o: Outcome)
    ensures o.Threw? ==> u == ExportDetails
    ensures |d.operation| < |o.doc.operation| && o.doc.operation[..|d.operation|] == d.operation
    ensures |d.resource| <= |o.doc.resource| <= |d.resource| + 2
    ensures u != ExportDetails ==> o.doc.resource == d.resource
  {
    match u
    case ExportDetails =>
      var d1 := WithServerOperation(d, Entry(Export, resolve));
      (match WithResourceOperation(d1, Entry(PatientExport, resolve), Patient)
       case Threw(d2) => Threw(d2)
       case Completed(d2) => WithResourceOperation(d2, Entry(GroupExport, resolve), Group))
    case ReindexDetails =>
      Completed(WithServerOperation(WithServerOperation(d, Entry(Reindex, resolve)), Entry(ResourceReindex, resolve)))
    case AnonymizedExportDetails =>
      Completed(WithServerOperation(d, Entry(AnonymizedExport, resolve)))
  }

  /** The effect of a queue of updates applied in order; the first exception ends the pass. */
  function AfterUpdates(d: RestValue, us: seq<UpdateKind>, resolve: string -> string): (o: Outcome)
    ensures o.Threw? ==> ExportDetails in us
    ensures |d.operation| <= |o.doc.operation| && o.doc.operation[..|d.operation|] == d.operation
    ensures ExportDetails !in us ==> o.doc.resource == d.resource
  {
    if us == [] then Completed(d)
    else
      match AfterUpdates(d, us[..|us| - 1], resolve)
      case Threw(d') => Threw(d')
      case Completed(d') => AfterUpdate(d', us[|us| - 1], resolve)
  }

  /** The position of each update in the fixed order in which `Build` checks the features. */
  function Rank(u: UpdateKind): nat {
    match u
    case ExportDetails => 0
    case ReindexDetails => 1
    case AnonymizedExportDetails => 2
  }

  /**
   * The updates `Build` queues for a configuration: the update of each enabled
   * feature and no other, each once, in the order export, reindex,
   * anonymized export.
   */
  function QueuedUpdates(exportEnabled: bool, reindexEnabled: bool, supportsAnonymizedExport: bool): (q: seq<UpdateKind>)
    ensures (ExportDetails in q) == exportEnabled
    ensures (ReindexDetails in q) == reindexEnabled
    ensures (AnonymizedExportDetails in q) == supportsAnonymizedExport
    ensures forall i, j :: 0 <= i < j < |q| ==> Rank(q[i]) < Rank(q[j])
    ensures !exportEnabled && !reindexEnabled && !supportsAnonymizedExport ==> q == []
  {
    (if exportEnabled then [ExportDetails] else []) +
    (if reindexEnabled then [ReindexDetails] else []) +
    (if supportsAnonymizedExport then [AnonymizedExportDetails] else [])
  }

  /** An exception in a prefix of the queue is the outcome of the whole queue. */
  lemma {:induction false} ThrewPropagates(d: RestValue, us: seq<UpdateKind>, j: nat, resolve: string -> string)
    requires j <= |us|
    requires AfterUpdates(d, us[..j], resolve).Threw?
    ensures AfterUpdates(d, us, resolve) == AfterUpdates(d, us[..j], resolve)
    decreases |us| - j
  {
    if j < |us| {
      assert us[..|us| - 1][..j] == us[..j];
      ThrewPropagates(d, us[..|us| - 1], j, resolve);
    } else {
      assert us[..j] == us;
    }
  }

  /** The resource-scoped registration for a type not listed yet: a new component with the default profile gets the entry and is appended. */
  method AddToNewComponent(statement: ListedRestComponent, resourceType: string, entry: OperationComponent)
    returns (component: ListedResourceComponent)
    modifies statement
    ensures fresh(component)
    ensures statement.operation == old(statement.operation)
    ensures statement.resource == old(statement.resource) + [component]
    ensures statement.View() == old(statement.View()).(resource := old(statement.View()).resource +
      [ResourceValue(resourceType, DefaultProfile(resourceType), [entry])])
  {
    ghost var oldResource := statement.resource;
    component := new ListedResourceComponent(resourceType, DefaultProfile(resourceType));
    component.operation := component.operation + [entry];
    statement.resource := statement.resource + [component];
    ValuesUnchanged(oldResource);
    ValuesSnoc(oldResource, component);
    assert component.Value() == ResourceValue(resourceType, DefaultProfile(resourceType), [entry]);
  }

  /** The resource-scoped registration for the component found at `i`: that very object gets the entry and is appended again. */
  method AddToListedComponent(statement: ListedRestComponent, i: nat, entry: OperationComponent)
    requires i < |statement.resource|
    requires forall k :: 0 <= k < |statement.resource| && k != i ==> statement.resource[k] != statement.resource[i]
    modifies statement, statement.resource[i]
    ensures statement.operation == old(statement.operation)
    ensures statement.resource == old(statement.resource) + [old(statement.resource)[i]]
    ensures statement.View() == old(statement.View()).(resource := old(statement.View()).resource[i := Extended(old(statement.View()).resource[i], entry)]
      + [Extended(old(statement.View()).resource[i], entry)])
  {
    ghost var oldResource := statement.resource;
    ghost var oldValues := Values(oldResource);
    var component := statement.resource[i];
    component.operation := component.operation + [entry];
    statement.resource := statement.resource + [component];
    ghost var value := component.Value();
    assert value == Extended(oldValues[i], entry);
    assert Values(oldResource) == oldValues[i := value] by {
      forall k | 0 <= k < |oldResource|
        ensures Values(oldResource)[k] == oldValues[i := value][k]
      {
        if k != i {
          assert oldResource[k] != component;
        }
      }
    }
    ValuesSnoc(oldResource, component);
  }

  /**
   * `ICapabilityStatementBuilder`, reduced to what the provider uses: the
   * statement being built and the queue of updates registered with `Update`,
   * applied later in registration order.
   */
  class CapabilityStatementBuilder {
    const statement: ListedRestComponent
    var updates: seq<UpdateKind>

    constructor (statement: ListedRestComponent)
      ensures this.statement == statement && updates == []
    {
      this.statement := statement;
      updates := [];
    }

    /** `Update(action)`: registers an update; nothing is applied yet. */
    method Update(u: UpdateKind)
      modifies this
      ensures updates == old(updates) + [u]
    {
      updates := updates + [u];
    }

    /** Runs the queued updates one after the other against the statement, stopping at an exception. */
    method ApplyUpdates(provider: OperationsCapabilityProvider) returns (threw: bool)
      modifies statement, set c | c in statement.resource
      ensures threw == AfterUpdates(old(statement.View()), updates, provider.resolve).Threw?
      ensures statement.View() == AfterUpdates(old(statement.View()), updates, provider.resolve).doc
    {
      ghost var start := statement.View();
      var i := 0;
      while i < |updates|
        invariant 0 <= i <= |updates|
        invariant forall o :: o in statement.resource ==> o in old(statement.resource) || fresh(o)
        invariant AfterUpdates(start, updates[..i], provider.resolve) == Completed(statement.View())
      {
        assert updates[..i + 1][..i] == updates[..i];
        threw := provider.Apply(updates[i], statement);
        if threw {
          ThrewPropagates(start, updates, i + 1, provider.resolve);
          return;
        }
        i := i + 1;
      }
      assert updates[..i] == updates;
      threw := false;
    }
  }

  /** `OperationsCapabilityProvider` with its configuration and its URL resolver. */
  class OperationsCapabilityProvider {
    const exportEnabled: bool             // OperationsConfiguration.Export.Enabled
    const reindexEnabled: bool            // OperationsConfiguration.Reindex.Enabled
    const supportsAnonymizedExport: bool  // FeatureConfiguration.SupportsAnonymizedExport
    /** `IUrlResolver.ResolveOperationDefinitionUrl` followed by `Uri.ToString`. */
    const resolve: string -> string

    constructor (exportEnabled: bool, reindexEnabled: bool, supportsAnonymizedExport: bool, resolve: string -> string)
      ensures this.exportEnabled == exportEnabled && this.reindexEnabled == reindexEnabled
      ensures this.supportsAnonymizedExport == supportsAnonymizedExport && this.resolve == resolve
    {
      this.exportEnabled := exportEnabled;
      this.reindexEnabled := reindexEnabled;
      this.supportsAnonymizedExport := supportsAnonymizedExport;
      this.resolve := resolve;
    }

    /** Queues export, then reindex, then anonymized export, each only when enabled. */
    method Build(builder: CapabilityStatementBuilder)
      modifies builder
      ensures builder.updates == old(builder.updates) + QueuedUpdates(exportEnabled, reindexEnabled, supportsAnonymizedExport)
    {
      if exportEnabled {
        builder.Update(ExportDetails);
      }
      if reindexEnabled {
        builder.Update(ReindexDetails);
      }
      if supportsAnonymizedExport {
        builder.Update(AnonymizedExportDetails);
      }
    }

    /** Runs the update a queued tag stands for. */
    method Apply(u: UpdateKind, statement: ListedRestComponent) returns (threw: bool)
      modifies statement, set c | c in statement.resource
      ensures threw == AfterUpdate(old(statement.View()), u, resolve).Threw?
      ensures statement.View() == AfterUpdate(old(statement.View()), u, resolve).doc
      ensures forall o :: o in statement.resource ==> o in old(statement.resource) || fresh(o)
    {
      match u
      case ExportDetails => threw := AddExportDetails(statement);
      case ReindexDetails => AddReindexDetails(statement); threw := false;
      case AnonymizedExportDetails => AddAnonymizedExportDetails(statement); threw := false;
    }

    /** Registers export on the server, then patient-export on Patient and group-export on Group. */
    method AddExportDetails(statement: ListedRestComponent) returns (threw: bool)
      modifies statement, set c | c in statement.resource
      ensures threw == AfterUpdate(old(statement.View()), ExportDetails, resolve).Threw?
      ensures statement.View() == AfterUpdate(old(statement.View()), ExportDetails, resolve).doc
      ensures forall o :: o in statement.resource ==> o in old(statement.resource) || fresh(o)
    {
      ghost var d0 := statement.View();
      GetAndAddServerOperationDefinitionUri(statement, Export);
      ghost var d1 := statement.View();
      threw := GetAndAddResourceOperationDefinitionUri(statement, PatientExport, Patient);
      ghost var o2 := WithResourceOperation(d1, Entry(PatientExport, resolve), Patient);
      assert threw == o2.Threw? && statement.View() == o2.doc;
      if threw {
        assert AfterUpdate(d0, ExportDetails, resolve) == o2 by {
          assert d1 == WithServerOperation(d0, Entry(Export, resolve));
        }
        return;
      }
      ghost var d2 := statement.View();
      ghost var r2 := statement.resource;
      assert forall o :: o in r2 ==> o in old(statement.resource) || fresh(o);
      threw := GetAndAddResourceOperationDefinitionUri(statement, GroupExport, Group);
      assert forall o :: o in statement.resource ==> o in old(statement.resource) || fresh(o) by {
        forall o | o in statement.resource ensures o in old(statement.resource) || fresh(o) {
          if o in r2 {
          }
        }
      }
      assert AfterUpdate(d0, ExportDetails, resolve) == WithResourceOperation(d2, Entry(GroupExport, resolve), Group) by {
        assert d1 == WithServerOperation(d0, Entry(Export, resolve));
        assert o2 == Completed(d2);
      }
    }

    /** Registers anonymized-export on the server; the resource components are not touched. */
    method AddAnonymizedExportDetails(statement: ListedRestComponent)
      modifies statement
      ensures statement.View() == AfterUpdate(old(statement.View()), AnonymizedExportDetails, resolve).doc
      ensures statement.resource == old(statement.resource)
    {
      GetAndAddServerOperationDefinitionUri(statement, AnonymizedExport);
    }

    /** Registers reindex, then resource-reindex, on the server; the resource components are not touched. */
    method AddReindexDetails(statement: ListedRestComponent)
      modifies statement
      ensures statement.View() == AfterUpdate(old(statement.View()), ReindexDetails, resolve).doc
      ensures statement.resource == old(statement.resource)
    {
      GetAndAddServerOperationDefinitionUri(statement, Reindex);
      GetAndAddServerOperationDefinitionUri(statement, ResourceReindex);
    }

    /** The server-level overload: one entry appended at the end of the server operation list. */
    method GetAndAddServerOperationDefinitionUri(statement: ListedRestComponent, operationType: string)
      modifies statement
      ensures statement.operation == old(statement.operation) + [OperationComponent(operationType, resolve(operationType))]
      ensures statement.resource == old(statement.resource)
      ensures statement.View() == WithServerOperation(old(statement.View()), Entry(operationType, resolve))
    {
      var definition := resolve(operationType);
      statement.operation := statement.operation + [OperationComponent(operationType, definition)];
    }

    /**
     * The resource-scoped overload. When `SingleOrDefault` throws nothing
     * changes; otherwise the component it found (the very same object) or a
     * new one gets the entry and is appended to the resource list.
     */
    method GetAndAddResourceOperationDefinitionUri(statement: ListedRestComponent, operationType: string, resourceType: string)
      returns (threw: bool)
      modifies statement, set c | c in statement.resource
      ensures var o := WithResourceOperation(old(statement.View()), Entry(operationType, resolve), resourceType);
        threw == o.Threw? && statement.View() == o.doc
      ensures match SingleOrDefault(TypesOf(old(statement.View()).resource), resourceType)
        case MultipleMatches => statement.resource == old(statement.resource)
        case Match(i) => statement.resource == old(statement.resource) + [old(statement.resource)[i]]
        case NoMatch =>
          var n := |old(statement.resource)|;
          |statement.resource| == n + 1 && statement.resource[..n] == old(statement.resource) && fresh(statement.resource[n])
      ensures forall o :: o in statement.resource ==> o in old(statement.resource) || fresh(o)
    {
      var definition := resolve(operationType);
      var entry := OperationComponent(operationType, definition);
      ghost var before := statement.View();
      var types := TypesOf(Values(statement.resource));
      var lookup := SingleOrDefault(types, resourceType);
      if lookup.MultipleMatches? {
        // InvalidOperationException from SingleOrDefault
        return true;
      }
      if lookup.NoMatch? {
        var component := AddToNewComponent(statement, resourceType, entry);
        assert statement.resource[..|before.resource|] == old(statement.resource);
      } else {
        forall k | 0 <= k < |statement.resource| && k != lookup.index
          ensures statement.resource[k] != statement.resource[lookup.index]
        {
          assert types[k] == statement.resource[k].resourceType;
        }
        AddToListedComponent(statement, lookup.index, entry);
      }
      threw := false;
    }
  }
}
