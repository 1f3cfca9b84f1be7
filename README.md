# Operation registration in the FHIR capability statement, and the identity-provider version

This project models two pieces of a FHIR server and proves properties about them.

**`OperationsCapabilityProvider`** contributes the server's operations to the
HL7 FHIR CapabilityStatement. These are the `rest.operation` and
`rest.resource.operation` elements.
- `Build` looks at three configuration flags. For each flag that is on, it
  queues one document update on the capability statement builder, in a fixed
  order: export, reindex, anonymized export.
- Each update appends `OperationComponent { Name, Definition }` entries. The
  definition URL comes from the URL resolver.
- An entry goes either to the server rest component's operation list, or to
  the resource component of a resource type.
- For a resource type, the component is looked up by case-insensitive
  comparison with `SingleOrDefault`. If there is none, a component is created
  with the standard StructureDefinition profile. The entry is appended to the
  component, and the component is then added to the resource list. It is
  added even when it was found.

The components are modelled as objects that are changed in place:
- `Conformance.ListedRestComponent` and `Conformance.ListedResourceComponent`
  are classes.
- The resource list is a sequence of object references, so a found component
  that is added again appears twice as the same object.
- The methods of `OperationsCapability.OperationsCapabilityProvider` are
  proved against value-level specification functions: `WithServerOperation`,
  `WithResourceOperation`, `AfterUpdate` and `AfterUpdates`.
- Module `OperationsCapabilityProperties` proves what those functions promise.
- The builder's `Update` appends an update tag to a queue. `ApplyUpdates` later
  runs the queued updates in order, and the first exception ends the pass.

An exception does not undo anything. `Outcome.Threw` carries the document as
it was when the exception escaped. For example, when export throws at the
Patient lookup, the `export` server entry is already there.

**`CosmosIdentityProviderExtensions.ToIdentityProvider`** turns a stored
identity-provider record into the security layer's `IdentityProvider`.
- It copies the name, the authority and the audience.
- The record's ETag becomes the `Version`, with every leading and trailing
  double quote removed (`Trim('"')`).
- An HTTP entity tag is `DQUOTE *etagc DQUOTE` (section 8.8.3 of RFC 9110).
  The lemmas say what trimming does to a strong tag and to a weak one.

One point where the code may not do what its authors intended; the model
follows the code:
- **Adding a found component.** The code passes the found component to
  `Resource.Add` again (line 115 of `OperationsCapabilityProvider.cs`). The
  lookup-or-create shape of lines 94-107 reads as aiming at one resource component
  per type, which is also what a FHIR CapabilityStatement expects (one
  `rest.resource` entry per resource type). In the model, every registration
  against a type adds one component of that type.
  - `OperationsCapabilityProperties.ThirdResourceOperationThrows` and
    `OperationsCapabilityProperties.SecondResourceOperationThrows` show the
    consequence: the list grows until the lookup throws.
  - The collection type behind `Resource` is not part of this model, so the
    model does not claim that the real list keeps the duplicate.
  - The lookup on line 95 uses `SingleOrDefault`, which throws
    `InvalidOperationException` when two or more components match. On its own
    that is harmless; together with the re-add it is what makes the third
    registration against a new type throw (the second, against a type listed
    once). The model reports `Threw` there and keeps the document as the
    lookup found it.

The operation names (`export`, `patient-export`, `group-export`,
`anonymized-export`, `reindex`, `resource-reindex`) and the resource types
`Patient` and `Group` are constants of the model. `OperationsConstants` and
`KnownResourceTypes` are not part of this model; these strings are assumed
values of their constants.

## Model

| member | source | states |
|---|---|---|
| CosmosIdentityProviders.TrimStart | src/Microsoft.Health.Fhir.CosmosDb/Features/Storage/ControlPlane/CosmosIdentityProviderExtensions.cs:14 | the result is a suffix of the input; only quotes precede it; it does not start with a quote |
| CosmosIdentityProviders.TrimEnd | src/Microsoft.Health.Fhir.CosmosDb/Features/Storage/ControlPlane/CosmosIdentityProviderExtensions.cs:14 | the result is a prefix of the input; only quotes follow it; it does not end with a quote |
| CosmosIdentityProviders.Trim | src/Microsoft.Health.Fhir.CosmosDb/Features/Storage/ControlPlane/CosmosIdentityProviderExtensions.cs:14 | the result is no longer than the input and has no quote at either end |
| CosmosIdentityProviders.TrimIsSlice | src/Microsoft.Health.Fhir.CosmosDb/Features/Storage/ControlPlane/CosmosIdentityProviderExtensions.cs:14 | the trimmed string is the contiguous slice of the input right after its leading quotes; only quotes come before it and only quotes after it |
| CosmosIdentityProviders.ToIdentityProvider | src/Microsoft.Health.Fhir.CosmosDb/Features/Storage/ControlPlane/CosmosIdentityProviderExtensions.cs:12-15 | name, authority and audience are copied; the version is no longer than the ETag, is a contiguous slice of it surrounded only by quotes, and has no quote at either end |
| CosmosIdentityProviders.TrimIsTheQuoteFreeCore | src/Microsoft.Health.Fhir.CosmosDb/Features/Storage/ControlPlane/CosmosIdentityProviderExtensions.cs:14 | uniqueness: whenever the input splits into quotes, a part with no quote at either end, and quotes, trimming gives exactly that part |
| CosmosIdentityProviders.TrimUnchangedIff | src/Microsoft.Health.Fhir.CosmosDb/Features/Storage/ControlPlane/CosmosIdentityProviderExtensions.cs:14 | trimming leaves a string unchanged if and only if it has no quote at either end, so only quotes are ever removed and interior quotes survive |
| CosmosIdentityProviders.TrimIdempotent | src/Microsoft.Health.Fhir.CosmosDb/Features/Storage/ControlPlane/CosmosIdentityProviderExtensions.cs:14 | trimming twice gives the same as trimming once |
| CosmosIdentityProviders.TrimStrongEntityTag | src/Microsoft.Health.Fhir.CosmosDb/Features/Storage/ControlPlane/CosmosIdentityProviderExtensions.cs:14 | a strong entity tag `"s"`, with no quote at either end of `s`, becomes `s` |
| CosmosIdentityProviders.TrimWeakEntityTag | src/Microsoft.Health.Fhir.CosmosDb/Features/Storage/ControlPlane/CosmosIdentityProviderExtensions.cs:14 | a weak entity tag `W/"s"`, for non-empty `s` not ending in a quote, loses only its closing quote and keeps `W/` and the opening quote |
| Conformance.SingleOrDefault | src/Microsoft.Health.Fhir.Api/Features/Operations/OperationsCapabilityProvider.cs:95 | no match exactly when no type matches ignoring case; one match at index i exactly when the count of matches is one, type i matches and no other does; several matches otherwise (the exception) |
| Conformance.EqualsIgnoreCase | src/Microsoft.Health.Fhir.Api/Features/Operations/OperationsCapabilityProvider.cs:95 | the `OrdinalIgnoreCase` comparison of the lookup: equal strings match; matching strings have the same length and the same folded first character |
| Conformance.ListedResourceComponent.constructor | src/Microsoft.Health.Fhir.Api/Features/Operations/OperationsCapabilityProvider.cs:99-106 | a new component has the given type and profile reference and no operations |
| OperationsCapability.DefaultProfile | src/Microsoft.Health.Fhir.Api/Features/Operations/OperationsCapabilityProvider.cs:104 | the synthesised profile reference is `http://hl7.org/fhir/StructureDefinition/` followed by exactly the resource type |
| OperationsCapability.WithServerOperation | src/Microsoft.Health.Fhir.Api/Features/Operations/OperationsCapabilityProvider.cs:83-87 | the server-level registration on values: the operation list is the old list plus the entry at its end; the resource components are unchanged |
| OperationsCapability.WithResourceOperation | src/Microsoft.Health.Fhir.Api/Features/Operations/OperationsCapabilityProvider.cs:90-116 | the resource-scoped registration on values: it throws exactly when two or more components match, leaving the document unchanged; it never changes the server operations; when it completes the list is one longer and its new last component matches the type and ends with the entry |
| OperationsCapability.AfterUpdate | src/Microsoft.Health.Fhir.Api/Features/Operations/OperationsCapabilityProvider.cs:62-78 | one update on values: only export can throw; the server operations keep their old entries as a prefix and gain at least one; at most two components are added; reindex and anonymized export leave the resource list unchanged |
| OperationsCapability.AfterUpdates | src/Microsoft.Health.Fhir.Api/Features/Operations/OperationsCapabilityProvider.cs:44-78 | a queue of updates on values: it can throw only if it holds export; the server operations keep their old entries as a prefix; without export the resource list is unchanged |
| OperationsCapability.QueuedUpdates | src/Microsoft.Health.Fhir.Api/Features/Operations/OperationsCapabilityProvider.cs:44-60 | the queue holds the export update iff export is enabled, the reindex update iff reindex is enabled, and the anonymized-export update iff that feature is on; it is strictly ordered export, reindex, anonymized export, so each appears at most once; with every flag off it is empty |
| OperationsCapability.ThrewPropagates | src/Microsoft.Health.Fhir.Api/Features/Operations/OperationsCapabilityProvider.cs:44-60 | once an update of the queue throws, the outcome of the whole queue is that exception and the document it left |
| OperationsCapability.AddToNewComponent | src/Microsoft.Health.Fhir.Api/Features/Operations/OperationsCapabilityProvider.cs:97-115 | a fresh component is appended after the old, unchanged list; its value has the type, the standard profile and the entry as its only operation; the server operations are unchanged |
| OperationsCapability.AddToListedComponent | src/Microsoft.Health.Fhir.Api/Features/Operations/OperationsCapabilityProvider.cs:109-115 | the found component object itself is appended again; its value gains the entry at the end, both where it was and at the new end of the list; every other component and the server operations are unchanged |
| OperationsCapability.CapabilityStatementBuilder.Update | src/Microsoft.Health.Fhir.Api/Features/Operations/OperationsCapabilityProvider.cs:48-58 | registering an update appends it to the queue and applies nothing |
| OperationsCapability.CapabilityStatementBuilder.ApplyUpdates | src/Microsoft.Health.Fhir.Api/Features/Operations/OperationsCapabilityProvider.cs:44-60 | running the queue leaves the statement whose value is `AfterUpdates` of the old value, and reports an exception exactly when `AfterUpdates` throws |
| OperationsCapability.OperationsCapabilityProvider.constructor | src/Microsoft.Health.Fhir.Api/Features/Operations/OperationsCapabilityProvider.cs:30-42 | the provider keeps the export flag, the reindex flag, the anonymized-export flag and the resolver it is given |
| OperationsCapability.OperationsCapabilityProvider.Build | src/Microsoft.Health.Fhir.Api/Features/Operations/OperationsCapabilityProvider.cs:44-60 | the builder's queue gains exactly `QueuedUpdates` of the provider's flags, after what it already held |
| OperationsCapability.OperationsCapabilityProvider.Apply | src/Microsoft.Health.Fhir.Api/Features/Operations/OperationsCapabilityProvider.cs:48-58 | running a queued update gives the statement `AfterUpdate` of its old value; every listed component is an old one or a new one |
| OperationsCapability.OperationsCapabilityProvider.AddExportDetails | src/Microsoft.Health.Fhir.Api/Features/Operations/OperationsCapabilityProvider.cs:62-67 | the statement's value and the exception flag are those of `AfterUpdate(old, ExportDetails)`: the export entry, then patient-export on Patient, then group-export on Group |
| OperationsCapability.OperationsCapabilityProvider.AddAnonymizedExportDetails | src/Microsoft.Health.Fhir.Api/Features/Operations/OperationsCapabilityProvider.cs:69-72 | the server operations gain the anonymized-export entry; the resource list is the same list of objects |
| OperationsCapability.OperationsCapabilityProvider.AddReindexDetails | src/Microsoft.Health.Fhir.Api/Features/Operations/OperationsCapabilityProvider.cs:74-78 | the server operations gain the reindex and then the resource-reindex entries; the resource list is the same list of objects |
| OperationsCapability.OperationsCapabilityProvider.GetAndAddServerOperationDefinitionUri | src/Microsoft.Health.Fhir.Api/Features/Operations/OperationsCapabilityProvider.cs:80-88 | exactly one entry, named by the operation and defined by the resolved URL, is appended at the end of the server operations; the resource list is the same list of objects |
| OperationsCapability.OperationsCapabilityProvider.GetAndAddResourceOperationDefinitionUri | src/Microsoft.Health.Fhir.Api/Features/Operations/OperationsCapabilityProvider.cs:90-116 | the statement's new value and the exception flag are those of `WithResourceOperation`; on an exception the object list is unchanged; on one match the same object is appended again; otherwise one fresh object is appended |
| OperationsCapabilityProperties.EqualsIgnoreCaseIffUpper | src/Microsoft.Health.Fhir.Api/Features/Operations/OperationsCapabilityProvider.cs:95 | two strings match ignoring case if and only if their upper-cased forms are equal |
| OperationsCapabilityProperties.EqualsIgnoreCaseIsEquivalence | src/Microsoft.Health.Fhir.Api/Features/Operations/OperationsCapabilityProvider.cs:95 | comparison ignoring case is reflexive, symmetric and transitive |
| OperationsCapabilityProperties.CountMatchesAppend | src/Microsoft.Health.Fhir.Api/Features/Operations/OperationsCapabilityProvider.cs:95 | appending a type adds one to the count of matches exactly when it matches |
| OperationsCapabilityProperties.CountMatchesNone | src/Microsoft.Health.Fhir.Api/Features/Operations/OperationsCapabilityProvider.cs:95 | when no position matches, the count is zero |
| OperationsCapabilityProperties.CountMatchesOne | src/Microsoft.Health.Fhir.Api/Features/Operations/OperationsCapabilityProvider.cs:95 | when exactly one position matches, the count is one |
| OperationsCapabilityProperties.CountMatchesOfTwo | src/Microsoft.Health.Fhir.Api/Features/Operations/OperationsCapabilityProvider.cs:95 | two distinct matching positions make the count at least two |
| OperationsCapabilityProperties.TypesAfterResourceOperation | src/Microsoft.Health.Fhir.Api/Features/Operations/OperationsCapabilityProvider.cs:95-115 | after a completed resource-scoped registration the types are the old ones followed by one that matches the requested type |
| OperationsCapabilityProperties.ResourceOperationCreatesComponent | src/Microsoft.Health.Fhir.Api/Features/Operations/OperationsCapabilityProvider.cs:95-113 | with no matching component, the registration completes, keeps the server operations and appends a component of that type with profile `http://hl7.org/fhir/StructureDefinition/` + type and the entry as its only operation |
| OperationsCapabilityProperties.ResourceOperationExtendsMatch | src/Microsoft.Health.Fhir.Api/Features/Operations/OperationsCapabilityProvider.cs:95-115 | with exactly one match, the registration completes; the matched component keeps its type, profile and operations as a prefix with the entry last; it appears again at the end; all other components and the server operations are unchanged |
| OperationsCapabilityProperties.ResourceOperationThrowsOnTwoMatches | src/Microsoft.Health.Fhir.Api/Features/Operations/OperationsCapabilityProvider.cs:95 | with two matching components, the registration throws and leaves the document as it was |
| OperationsCapabilityProperties.ResourceOperationCounts | src/Microsoft.Health.Fhir.Api/Features/Operations/OperationsCapabilityProvider.cs:95-115 | the registration throws iff two or more components match, leaving the document unchanged; if it completes, the count of matches grows by exactly one and the count of every non-matching type stays |
| OperationsCapabilityProperties.ThirdResourceOperationThrows | src/Microsoft.Health.Fhir.Api/Features/Operations/OperationsCapabilityProvider.cs:95-115 | for a type with no component, two registrations complete and leave two components of that type, and a third throws |
| OperationsCapabilityProperties.SecondResourceOperationThrows | src/Microsoft.Health.Fhir.Api/Features/Operations/OperationsCapabilityProvider.cs:95-115 | for a type with one component, the first registration duplicates it and the second throws |
| OperationsCapabilityProperties.ReindexDetailsEffect | src/Microsoft.Health.Fhir.Api/Features/Operations/OperationsCapabilityProvider.cs:74-78 | reindex completes, appends exactly the reindex and then the resource-reindex entries to the server operations, and leaves the resources unchanged |
| OperationsCapabilityProperties.AnonymizedExportDetailsEffect | src/Microsoft.Health.Fhir.Api/Features/Operations/OperationsCapabilityProvider.cs:69-72 | anonymized export completes, appends exactly one server entry, and leaves the resources unchanged |
| OperationsCapabilityProperties.ExportDetailsEffect | src/Microsoft.Health.Fhir.Api/Features/Operations/OperationsCapabilityProvider.cs:62-67 | export always appends the export server entry; it throws iff two components already match Patient or two already match Group; otherwise it appends a Patient component ending with patient-export, then a Group component ending with group-export |
| OperationsCapabilityProperties.ResourceOperationLastEntry | src/Microsoft.Health.Fhir.Api/Features/Operations/OperationsCapabilityProvider.cs:109-115 | after a completed registration the list is one longer and its last component ends with the new entry |
| OperationsCapabilityProperties.ResourceOperationKeepsNonMatching | src/Microsoft.Health.Fhir.Api/Features/Operations/OperationsCapabilityProvider.cs:95-115 | a component whose type does not match stays where it was, unchanged |
| OperationsCapabilityProperties.ExportOnFreshTypes | src/Microsoft.Health.Fhir.Api/Features/Operations/OperationsCapabilityProvider.cs:62-67 | on a statement without Patient or Group components, export completes with the export entry appended and a new Patient component (patient-export) followed by a new Group component (group-export) |
| OperationsCapabilityProperties.BuildPass | src/Microsoft.Health.Fhir.Api/Features/Operations/OperationsCapabilityProvider.cs:44-78 | a whole pass on a statement without Patient or Group components never throws; it appends the declared server entries in the order export, reindex, resource-reindex, anonymized-export (each only when its feature is on) and, with export on, the Patient and Group components |
| OperationsCapabilityProperties.BuildPassOnEmptyStatement | src/Microsoft.Health.Fhir.Api/Features/Operations/OperationsCapabilityProvider.cs:44-78 | on an empty statement a pass completes with one, two and one server entries for the three features and exactly the Patient and Group components when export is on |
| OperationsCapabilityProperties.ExportDuplicatesExistingComponents | src/Microsoft.Health.Fhir.Api/Features/Operations/OperationsCapabilityProvider.cs:62-67 | on a statement with one Patient and one Group component, export completes and leaves two components of each type |

## Left out

- URL resolution: `IUrlResolver.ResolveOperationDefinitionUrl` and `Uri.ToString` are not part of this model. The resolver is a total function from operation name to URL text, fixed for the provider. A resolver failure is not modelled.
- Case-insensitive comparison: `StringComparison.OrdinalIgnoreCase` is modelled as ASCII upper-casing. Non-ASCII case mappings are not modelled.
- Guard clauses: the `EnsureArg` null checks of the constructor and the `IOptions` wrappers are not modelled. The provider holds the three flags directly.
- Null values: a null ETag, whose `Trim` would throw, is not modelled. Strings are never null in the model.
- The builder: the internals of `ICapabilityStatementBuilder` and the `Rest.Server()` extension are not shown. The builder is a queue of update tags applied in order to one server rest component.
- The collections: the collection types behind `Resource`, behind the server-level `Operation` and behind each resource component's `Operation` are not part of this model. Each is an ordered sequence, and `Add` is a plain append that keeps order and never removes duplicates.
- Other files: `FhirXmlInputFormatter` is request-body I/O delegated to an external parser, and `IMetricLoggerFactory` is an interface with no behaviour. Neither is modelled.
- Concurrency: each build pass owns its document and runs sequentially, so concurrency is not modelled.
