# MSBuild project documents, expression trees and position conversions

A model of three parts of an MSBuild language server:

- **Expression trees** (`expressions.dfy`, module `ExpressionExtensions`). MSBuild
  expressions are parsed into trees of nodes; simple lists hold items and
  separators. The model keeps a tree as an arena of nodes that name their parent
  and children by index, with parents numbered before their children.
  `AncestorNodes` walks the parent chain with a loop, proved to yield exactly the
  ancestors from the nearest up to the root. `DescendantNodes` is the recursive
  enumeration as written: for each child of a container it yields the container
  itself and then the child's own enumeration. The model proves what that
  sequence holds. Its length equals the number of proper descendants. Each entry
  is a container in the node's subtree. The container appears once per child,
  first of all. `FindItemAt` picks the list item at or near an absolute
  position. It takes the last child that starts at or before the position. On a
  separator it breaks the tie towards the preceding item up to the separator
  character and towards the following item after it.
- **Position conversions** (`conversions.dfy`, module `ModelConversions`). These
  map between the server's native positions and ranges, the Language Server
  Protocol's zero-based ones, MSBuild element locations and XML text spans. Null
  stays null. Protocol-to-native-and-back is the identity, and
  native-to-protocol-and-back gives the one-based form of the same place.
- **Project documents** (`document.dfy`, module `Documents`; `sessions.dfy`,
  module `Sessions`). A `ProjectDocument` holds an open project: its parsed XML
  and position table, the MSBuild project collection, project and positional
  lookup, the in-memory-changes flag, the diagnostics to publish, and per-prefix
  caches of NuGet suggestions. `Valid()` is its invariant. The XML and its
  position table are set together. A project implies a collection for the
  project's directory. A lookup belongs to the current project. A dirty document
  has XML. No published diagnostic has a blank message. No cached suggestion set
  is empty. Loading, updating and unloading are specified state by state. That
  covers each way the MSBuild engine can behave: it loads, it rejects the file as
  an invalid project, it fails otherwise, and unloading throws or not. The
  `Sessions` module proves multi-call behaviour. A rejected file is published as
  a single error diagnostic. A blank engine message escapes as an exception.
  Edits reload from the in-memory text. Suggestions are cached only when
  non-empty. `Unload` is idempotent. One sequence of calls leaves a loaded
  project without its lookup, so that MSBuild queries then dereference null.

External engines are parameters of the operations that call them. These are the
XML parser and its position table, the MSBuild engine, the positional MSBuild
lookup's search, the XML node search, and the NuGet client. A parsed document
and its position table are represented by the text they were built from. An
MSBuild project is represented by its file and where its XML was last read from.
What the engine does on a call is an `Engine` value. A NuGet answer is the set
the query returned.

## Model

| member | source | states |
|---|---|---|
| `ExpressionExtensions.Ancestors` | src/LanguageServer.SemanticModel.MSBuild/ExpressionExtensions.cs:22-34 | the ancestor chain: empty exactly for a root, starts at the parent, each entry's parent is the next, ends at a root, strictly decreasing ids |
| `ExpressionExtensions.AncestorNodes` | src/LanguageServer.SemanticModel.MSBuild/ExpressionExtensions.cs:27-33 | the parent-walking loop yields exactly `Ancestors` of the node |
| `ExpressionExtensions.AncestorsTransitive` | src/LanguageServer.SemanticModel.MSBuild/ExpressionExtensions.cs:27-33 | an ancestor's ancestors are ancestors of the node |
| `ExpressionExtensions.DescendantNodes` | src/LanguageServer.SemanticModel.MSBuild/ExpressionExtensions.cs:45-61 | the yield sequence as written: empty for a node that is not a container; for a container, the container itself once before each child's own sequence; every entry is a node numbered at or after the start node. What the sequence holds is proved by `DescendantCount`, `DescendantsAreSubtreeContainers` and `ContainerRepeatedPerChild` |
| `ExpressionExtensions.DescendantsAreSubtreeContainers` | src/LanguageServer.SemanticModel.MSBuild/ExpressionExtensions.cs:45-61 | every node `DescendantNodes` yields is a container in the node's subtree |
| `ExpressionExtensions.ProperDescendantsByChildren` | src/LanguageServer.SemanticModel.MSBuild/ExpressionExtensions.cs:54-60 | the proper descendants of a node are exactly the union of its children's subtrees |
| `ExpressionExtensions.DescendantCount` | src/LanguageServer.SemanticModel.MSBuild/ExpressionExtensions.cs:45-61 | `DescendantNodes` yields as many entries as the node has proper descendants |
| `ExpressionExtensions.ContainerRepeatedPerChild` | src/LanguageServer.SemanticModel.MSBuild/ExpressionExtensions.cs:54-57 | a container occurs in its own enumeration once per child, and first |
| `ExpressionExtensions.FindLast` | src/LanguageServer.SemanticModel.MSBuild/ExpressionExtensions.cs:83-85 | the index of the last child starting at or before the position, or none when every child starts after it |
| `ExpressionExtensions.FindItemAt` | src/LanguageServer.SemanticModel.MSBuild/ExpressionExtensions.cs:75-102 | null list throws ArgumentNull; outside the list's span gives no item; a found item is a child item of the list; a null dereference exactly when every child starts after the position |
| `ExpressionExtensions.FindItemAtSelects` | src/LanguageServer.SemanticModel.MSBuild/ExpressionExtensions.cs:83-101 | given the last child at or before the position: an item is returned, a separator picks the previous or next sibling by the separator character, anything else throws InvalidOperation |
| `ExpressionExtensions.SeparatorTieBreak` | src/LanguageServer.SemanticModel.MSBuild/ExpressionExtensions.cs:89-97 | in any list whose last child at or before the position is a separator: on or before its ';' the item just before it is returned, after it the item just after it, and no item when that neighbour is missing or not an item |
| `ExpressionExtensions.TieBreakInSeparator` | src/LanguageServer.SemanticModel.MSBuild/ExpressionExtensions.cs:89-97 | in a two-item list, any position inside the separator up to its character selects the first item and any later one the second |
| `ExpressionExtensions.TieBreakExample` | src/LanguageServer.SemanticModel.MSBuild/ExpressionExtensions.cs:80-97 | for `A;B`: on the separator gives A, just after gives B, past the end gives no item |
| `ModelConversions.PositionToLsp` | src/LanguageServer.Engine/Utilities/ModelConversions.cs:22-33 | null stays null; the protocol position denotes the same place, zero-based |
| `ModelConversions.LspPositionToNative` | src/LanguageServer.Engine/Utilities/ModelConversions.cs:44-54 | null stays null; the result is one-based and converts back to the same protocol position |
| `ModelConversions.PositionRoundTrip` | src/LanguageServer.Engine/Utilities/ModelConversions.cs:22-54 | native to protocol and back gives the one-based form of the position, the position itself when one-based |
| `ModelConversions.LocationToNative` | src/LanguageServer.Engine/Utilities/ModelConversions.cs:65-74 | null stays null; line 0 maps to the invalid position; otherwise the same one-based line and column |
| `ModelConversions.RangeToLsp` | src/LanguageServer.Engine/Utilities/ModelConversions.cs:85-94 | null stays null; each end converted as a position |
| `ModelConversions.LspRangeToNative` | src/LanguageServer.Engine/Utilities/ModelConversions.cs:130-139 | null stays null; each end converted as a position; converting back gives the same protocol range |
| `ModelConversions.RangeRoundTrip` | src/LanguageServer.Engine/Utilities/ModelConversions.cs:85-139 | native range to protocol and back gives both ends in one-based form |
| `ModelConversions.SpanToNative` | src/LanguageServer.Engine/Utilities/ModelConversions.cs:108-119 | throws ArgumentNull exactly without a position table, InvalidOperation exactly when the end lands in column 0; otherwise the looked-up ends |
| `Documents.ProjectDocument.constructor` | src/LanguageServer.Engine/Documents/ProjectDocument.cs:83-93 | a new document is valid, with nothing loaded, no diagnostics and empty caches |
| `Documents.ProjectDocument.HasXml` | src/LanguageServer.Engine/Documents/ProjectDocument.cs:123 | both the XML and its position table are set, which is exactly when neither the `Xml` nor the `XmlPositions` accessor throws |
| `Documents.ProjectDocument.HasDiagnostics` | src/LanguageServer.Engine/Documents/ProjectDocument.cs:113 | there is at least one diagnostic to publish |
| `Documents.ProjectDocument.HasMSBuildProject` | src/LanguageServer.Engine/Documents/ProjectDocument.cs:128 | a loaded MSBuild project implies loaded XML |
| `Documents.ProjectDocument.Xml` | src/LanguageServer.Engine/Documents/ProjectDocument.cs:144 | throws InvalidOperation exactly when the XML is not loaded, otherwise gives it |
| `Documents.ProjectDocument.XmlPositions` | src/LanguageServer.Engine/Documents/ProjectDocument.cs:152 | throws InvalidOperation exactly when the position table is not loaded, otherwise gives it |
| `Documents.ProjectDocument.MSBuildLookup` | src/LanguageServer.Engine/Documents/ProjectDocument.cs:160 | throws InvalidOperation exactly when there is no lookup, otherwise gives it |
| `Documents.ProjectDocument.ClearDiagnostics` | src/LanguageServer.Engine/Documents/ProjectDocument.cs:473-476 | no diagnostics remain; everything else is unchanged |
| `Documents.ProjectDocument.AddDiagnostic` | src/LanguageServer.Engine/Documents/ProjectDocument.cs:493-506 | throws InvalidArgument exactly for a null or blank message, adding nothing; otherwise appends one diagnostic with the severity, code, message, converted range and project file as source |
| `Documents.ProjectDocument.AddErrorDiagnostic` | src/LanguageServer.Engine/Documents/ProjectDocument.cs:520 | as `AddDiagnostic`, with Error severity |
| `Documents.ProjectDocument.AddWarningDiagnostic` | src/LanguageServer.Engine/Documents/ProjectDocument.cs:534 | as `AddDiagnostic`, with Warning severity |
| `Documents.ProjectDocument.AddInformationDiagnostic` | src/LanguageServer.Engine/Documents/ProjectDocument.cs:548 | as `AddDiagnostic`, with Information severity |
| `Documents.ProjectDocument.AddHintDiagnostic` | src/LanguageServer.Engine/Documents/ProjectDocument.cs:562 | as `AddDiagnostic`, with Hint severity |
| `Documents.ProjectDocument.TryUnloadMSBuildProject` | src/LanguageServer.Engine/Documents/ProjectDocument.cs:446-468 | without a loaded project nothing changes and it succeeds; otherwise the lookup is dropped, and the project too unless unloading throws, which it reports as failure |
| `Documents.ProjectDocument.TryLoadMSBuildProject` | src/LanguageServer.Engine/Documents/ProjectDocument.cs:389-438 | a clean loaded project is kept as is; otherwise the collection is created if missing, and the file is loaded or the project reloaded from the in-memory XML. Success sets project and lookup. An invalid project adds one error diagnostic and unloads. Any other failure unloads. True means a project is loaded; false means no lookup and no project unless unloading threw. A blank engine message escapes as InvalidArgument. An existing collection is kept. Validity is kept |
| `Documents.ProjectDocument.Load` | src/LanguageServer.Engine/Documents/ProjectDocument.cs:186-202 | diagnostics cleared, XML set to the file's text, not dirty, then the load attempt as `TryLoadMSBuildProject`; caches kept |
| `Documents.ProjectDocument.Update` | src/LanguageServer.Engine/Documents/ProjectDocument.cs:210-222 | null text throws ArgumentNull and changes nothing; otherwise diagnostics cleared, XML set, dirty, then the load attempt |
| `Documents.ProjectDocument.Unload` | src/LanguageServer.Engine/Documents/ProjectDocument.cs:317-324 | no XML, no loaded project, not dirty; the project unloaded as `TryUnloadMSBuildProject`; diagnostics and caches kept; on an unloaded document nothing changes |
| `Documents.ProjectDocument.SuggestPackageIds` | src/LanguageServer.Engine/Documents/ProjectDocument.cs:270-284 | throws InvalidOperation without XML; a cached prefix answers from the cache; otherwise the query's answer, cached only when non-empty; no cached entry is ever changed |
| `Documents.ProjectDocument.SuggestPackageVersions` | src/LanguageServer.Engine/Documents/ProjectDocument.cs:298-312 | as `SuggestPackageIds`, for versions per package id |
| `Documents.ProjectDocument.GetXmlAtPosition` | src/LanguageServer.Engine/Documents/ProjectDocument.cs:335-346 | null position throws ArgumentNull, missing XML InvalidOperation; otherwise the node the parsed document finds at the position |
| `Documents.ProjectDocument.GetMSBuildObjectAtPosition` | src/LanguageServer.Engine/Documents/ProjectDocument.cs:375-381 | throws InvalidOperation without a loaded project, dereferences null when the lookup is missing; otherwise the lookup's answer for the position, a null position passed on unchecked |
| `Sessions.RejectedThenFixed` | src/LanguageServer.Engine/Documents/ProjectDocument.cs:186-202 | loading a file the engine rejects completes, leaves XML without a project and publishes exactly one error diagnostic with the engine's code and message; loading a fixed file then loads the project with no diagnostics |
| `Sessions.BlankMessageEscapes` | src/LanguageServer.Engine/Documents/ProjectDocument.cs:419-424 | an invalid-project error with a blank message makes Load throw InvalidArgument and publishes nothing |
| `Sessions.EditReloadsFromText` | src/LanguageServer.Engine/Documents/ProjectDocument.cs:399-415 | an edit of a loaded project reloads it from the edited text and rebuilds the lookup over that text |
| `Sessions.StaleProjectWithoutLookup` | src/LanguageServer.Engine/Documents/ProjectDocument.cs:393-394 | after a failed reload whose unload also throws, reloading the file returns early and MSBuild queries dereference the missing lookup |
| `Sessions.SuggestionCaching` | src/LanguageServer.Engine/Documents/ProjectDocument.cs:276-282 | an empty answer is not cached, a non-empty one is, and later queries for the prefix get the cached answer |
| `Sessions.UnloadedDocument` | src/LanguageServer.Engine/Documents/ProjectDocument.cs:317-324 | after Unload the XML, XML queries and package suggestions all throw InvalidOperation, and a second Unload changes nothing |

## Left out

- A null `node` argument of `AncestorNodes` and `DescendantNodes` (ArgumentNullException) cannot be expressed: nodes are indices into the tree.
- `AncestorNodes` and `DescendantNodes` yield lazily; the model computes the whole sequence.
- `Position.ToZeroBased`, `Position.ToOneBased`, `Position.FromZeroBased`, `Position.Invalid` and the two-argument `Position` constructor are not in the modelled code. The model defines the shifts as adding or subtracting one from both numbers, `Invalid` as a one-based (0, 0), and a position made by the two-argument constructor as one-based.
- Null start or end positions inside a non-null range are not modelled; both ends of a range are positions.
- The generic `GetXmlAtPosition<TXml>` overload (a type test on the result) is not modelled.
- `GetXmlAtPosition` computes an absolute position that it never uses; that unused call is not modelled.
- The constructor's null-URI check and the conversion of the URI to a file path are outside the model; the project file and directory are given.
- Reading the project file in `Load` is file I/O; the text read is a parameter.
- Package-source configuration (`ConfigurePackageSources`) and the NuGet queries themselves are network I/O; their answers are parameters.
- The reader/writer lock and the asynchronous calls are concurrency, which is not modelled.
- Logging is not modelled.
- A published diagnostic keeps only severity, code, message, range and source.
- The XML parser, text positions, node search, MSBuild engine and positional lookup are not part of this model; their results are parameters or opaque values.
- Documents.ProjectDocument.TryLoadMSBuildProject: building the positional lookup is assumed not to throw, and a failed reload is assumed to leave the project as it was.
- Documents.ProjectDocument.SuggestPackageIds: a null prefix (a dictionary lookup with a null key) is not modelled; prefixes are strings.
- Documents.ProjectDocument.SuggestPackageVersions: a null package id is not modelled for the same reason.
- The LSP types' internals, the configuration handler and the log sink are outside the core.
