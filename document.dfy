/**
 * The per-document state of an MSBuild project open in the language server
 * (class ProjectDocument, src/LanguageServer.Engine/Documents/ProjectDocument.cs).
 *
 * The XML parser, the position table, the MSBuild engine, the positional
 * MSBuild lookup and the NuGet client are outside this model. Their results
 * are values: a parsed document and its position table are represented by
 * the text they were built from, an MSBuild project by its file and where
 * its XML came from, and what an engine call or a NuGet query does is an
 * argument of the operation that makes it.
 */
module Documents {
  import opened Wrappers
  import opened ModelConversions

  // -----------------------------------------------------------------------
  // Values the document holds
  // -----------------------------------------------------------------------

  datatype DiagnosticSeverity = Error | Warning | Information | Hint

  /** The parts of a published diagnostic that the document sets. */
  datatype Diagnostic = Diagnostic(
    severity: DiagnosticSeverity,
    code: string,
    message: string,
    range: Option<LspRange>,
    source: string)

  /** An MSBuild project collection, created for the project's directory. */
  datatype ProjectCollection = ProjectCollection(directory: string)

  /** Where an MSBuild project's XML was last read from. */
  datatype ProjectXml = FromFile | FromText(text: string)

  /** An MSBuild project loaded from `path`. */
  datatype MSBuildProject = MSBuildProject(path: string, xml: ProjectXml)

  /** A positional lookup, built over a project, a parsed document and its position table. */
  datatype PositionalLookup = PositionalLookup(project: MSBuildProject, xml: string, xmlPositions: string)

  datatype NuGetVersion = NuGetVersion(major: nat, minor: nat, patch: nat, release: string)

  /** A node of the parsed XML, or an MSBuild object, as the foreign lookups identify them. */
  type SyntaxNodeId = nat
  type MSBuildObjectId = nat

  /** What the MSBuild engine does when asked to load or reload the project. */
  datatype LoadBehaviour =
    | Succeeds
    | ThrowsInvalidProjectFile(baseMessage: Option<string>, range: Option<Range>, errorCode: string)
    | Throws

  /** The MSBuild engine's behaviour over one operation. */
  datatype Engine = Engine(
    collectionThrows: bool,   // creating the project collection throws
    load: LoadBehaviour,      // the load from file or the in-memory reload
    unloadThrows: bool)       // unloading the project from its collection throws

  /** Char.IsWhiteSpace. */
  predicate IsWhiteSpace(c: char) {
    || c == ' ' || '\t' <= c <= '\r'
    || c == '\U{0085}' || c == '\U{00A0}' || c == '\U{1680}'
    || '\U{2000}' <= c <= '\U{200A}'
    || c == '\U{2028}' || c == '\U{2029}' || c == '\U{202F}' || c == '\U{205F}' || c == '\U{3000}'
  }

  /** String.IsNullOrWhiteSpace. */
  predicate IsNullOrWhiteSpace(s: Option<string>) {
    s.None? || forall i :: 0 <= i < |s.value| ==> IsWhiteSpace(s.value[i])
  }

  /** The result of a throwing member, as seen by a caller that drops its value. */
  function AsOutcome<T>(r: Result<T>): (o: Outcome)
    ensures o.Pass? <==> r.Ok?
    ensures o.Fail? ==> o.error == r.error
  {
    if r.Ok? then Pass else Fail(r.error)
  }

  // -----------------------------------------------------------------------
  // The document
  // -----------------------------------------------------------------------

  class ProjectDocument {
    /** ProjectFile.FullName and ProjectFile.Directory.FullName. */
    const projectFile: string
    const projectDirectory: string

    var diagnostics: seq<Diagnostic>
    var packageIdCache: map<string, set<string>>
    var packageVersionCache: map<string, set<NuGetVersion>>
    var xml: Option<string>
    var xmlPositions: Option<string>
    var msbuildProjectCollection: Option<ProjectCollection>
    var msbuildProject: Option<MSBuildProject>
    var msbuildLookup: Option<PositionalLookup>
    var isDirty: bool

    /** The document's invariant. */
    ghost predicate Valid()
      reads this
    {
      // the parsed XML and its position table are set and cleared together
      && (xml.Some? <==> xmlPositions.Some?)
      && (xml.Some? ==> xml == xmlPositions)
      // a project lives in the collection, and a lookup belongs to the current project
      && (msbuildProject.Some? ==> msbuildProjectCollection == Some(ProjectCollection(projectDirectory)))
      && (msbuildProjectCollection.Some? ==> msbuildProjectCollection == Some(ProjectCollection(projectDirectory)))
      && (msbuildLookup.Some? ==> msbuildProject.Some? && msbuildLookup.value.project == msbuildProject.value)
      // in-memory changes need XML to be in
      && (isDirty ==> HasXml())
      && (forall d :: d in diagnostics ==> !IsNullOrWhiteSpace(Some(d.message)))
      // only non-empty suggestions are cached
      && (forall k :: k in packageIdCache ==> packageIdCache[k] != {})
      && (forall k :: k in packageVersionCache ==> packageVersionCache[k] != {})
    }

    constructor (projectFile: string, projectDirectory: string)
      ensures Valid()
      ensures this.projectFile == projectFile && this.projectDirectory == projectDirectory
      ensures diagnostics == [] && packageIdCache == map[] && packageVersionCache == map[]
      ensures xml.None? && xmlPositions.None? && !isDirty
      ensures msbuildProjectCollection.None? && msbuildProject.None? && msbuildLookup.None?
    {
      this.projectFile := projectFile;
      this.projectDirectory := projectDirectory;
      diagnostics := [];
      packageIdCache := map[];
      packageVersionCache := map[];
      xml := None;
      xmlPositions := None;
      msbuildProjectCollection := None;
      msbuildProject := None;
      msbuildLookup := None;
      isDirty := false;
    }

    // ---------------------------------------------------------------------
    // State properties and accessors
    // ---------------------------------------------------------------------

    /** Is the project XML loaded? Exactly when neither XML accessor throws. */
    predicate HasXml()
      reads this
      ensures HasXml() <==> Xml().Ok? && XmlPositions().Ok?
    {
      xml.Some? && xmlPositions.Some?
    }

    /** Is the MSBuild project loaded? Never without the XML. */
    predicate HasMSBuildProject()
      reads this
      ensures HasMSBuildProject() ==> HasXml()
    {
      HasXml() && msbuildProject.Some?
    }

    /** Are there diagnostics to publish? */
    predicate HasDiagnostics()
      reads this
      ensures HasDiagnostics() <==> exists d :: d in diagnostics
    {
      assert |diagnostics| > 0 ==> diagnostics[0] in diagnostics;
      |diagnostics| > 0
    }

    /** The parsed XML; throws when it is not loaded. */
    function Xml(): (r: Result<string>)
      reads this
      ensures r.Err? <==> xml.None?
      ensures r.Err? ==> r.error == InvalidOperation
      ensures r.Ok? ==> Some(r.value) == xml
    {
      if xml.Some? then Ok(xml.value) else Err(InvalidOperation)
    }

    /** The XML position table; throws when it is not loaded. */
    function XmlPositions(): (r: Result<string>)
      reads this
      ensures r.Err? <==> xmlPositions.None?
      ensures r.Err? ==> r.error == InvalidOperation
      ensures r.Ok? ==> Some(r.value) == xmlPositions
    {
      if xmlPositions.Some? then Ok(xmlPositions.value) else Err(InvalidOperation)
    }

    /** The MSBuild object lookup; throws when it is not built. */
    function MSBuildLookup(): (r: Result<PositionalLookup>)
      reads this
      ensures r.Err? <==> msbuildLookup.None?
      ensures r.Err? ==> r.error == InvalidOperation
      ensures r.Ok? ==> Some(r.value) == msbuildLookup
    {
      if msbuildLookup.Some? then Ok(msbuildLookup.value) else Err(InvalidOperation)
    }

    // ---------------------------------------------------------------------
    // Diagnostics
    // ---------------------------------------------------------------------

    method ClearDiagnostics()
      requires Valid()
      modifies this`diagnostics
      ensures Valid() && diagnostics == []
    {
      diagnostics := [];
    }

    /** The diagnostic AddDiagnostic publishes. */
    function NewDiagnostic(severity: DiagnosticSeverity, message: string, range: Option<Range>, code: string): Diagnostic
      reads this
    {
      Diagnostic(severity, code, message, RangeToLsp(range), projectFile)
    }

    /** Appends one diagnostic; a null or blank message is refused and nothing is added. */
    method AddDiagnostic(severity: DiagnosticSeverity, message: Option<string>, range: Option<Range>, code: string)
      returns (r: Outcome)
      requires Valid()
      modifies this`diagnostics
      ensures Valid()
      ensures r.Fail? <==> IsNullOrWhiteSpace(message)
      ensures r.Fail? ==> r.error == InvalidArgument && diagnostics == old(diagnostics)
      ensures r.Pass? ==> diagnostics == old(diagnostics) + [NewDiagnostic(severity, message.value, range, code)]
    {
      if IsNullOrWhiteSpace(message) {
        return Fail(InvalidArgument);
      }
      diagnostics := diagnostics + [NewDiagnostic(severity, message.value, range, code)];
      return Pass;
    }

    method AddErrorDiagnostic(message: Option<string>, range: Option<Range>, code: string) returns (r: Outcome)
      requires Valid()
      modifies this`diagnostics
      ensures Valid()
      ensures r.Fail? <==> IsNullOrWhiteSpace(message)
      ensures r.Fail? ==> r.error == InvalidArgument && diagnostics == old(diagnostics)
      ensures r.Pass? ==> diagnostics == old(diagnostics) + [NewDiagnostic(Error, message.value, range, code)]
    {
      r := AddDiagnostic(Error, message, range, code);
    }

    method AddWarningDiagnostic(message: Option<string>, range: Option<Range>, code: string) returns (r: Outcome)
      requires Valid()
      modifies this`diagnostics
      ensures Valid()
      ensures r.Fail? <==> IsNullOrWhiteSpace(message)
      ensures r.Fail? ==> r.error == InvalidArgument && diagnostics == old(diagnostics)
      ensures r.Pass? ==> diagnostics == old(diagnostics) + [NewDiagnostic(Warning, message.value, range, code)]
    {
      r := AddDiagnostic(Warning, message, range, code);
    }

    method AddInformationDiagnostic(message: Option<string>, range: Option<Range>, code: string) returns (r: Outcome)
      requires Valid()
      modifies this`diagnostics
      ensures Valid()
      ensures r.Fail? <==> IsNullOrWhiteSpace(message)
      ensures r.Fail? ==> r.error == InvalidArgument && diagnostics == old(diagnostics)
      ensures r.Pass? ==> diagnostics == old(diagnostics) + [NewDiagnostic(Information, message.value, range, code)]
    {
      r := AddDiagnostic(Information, message, range, code);
    }

    method AddHintDiagnostic(message: Option<string>, range: Option<Range>, code: string) returns (r: Outcome)
      requires Valid()
      modifies this`diagnostics
      ensures Valid()
      ensures r.Fail? <==> IsNullOrWhiteSpace(message)
      ensures r.Fail? ==> r.error == InvalidArgument && diagnostics == old(diagnostics)
      ensures r.Pass? ==> diagnostics == old(diagnostics) + [NewDiagnostic(Hint, message.value, range, code)]
    {
      r := AddDiagnostic(Hint, message, range, code);
    }

    // ---------------------------------------------------------------------
    // Loading and unloading the MSBuild project
    // ---------------------------------------------------------------------

    /**
     * The state after TryUnloadMSBuildProject of a document whose project was
     * `project0` (loaded with the XML): the lookup is dropped, and the project
     * too unless unloading it from the collection throws.
     */
    ghost predicate UnloadedFrom(project0: Option<MSBuildProject>, unloadThrows: bool)
      reads this
    {
      msbuildLookup.None? && msbuildProject == (if unloadThrows then project0 else None)
    }

    /** Unloads the MSBuild project, if one is loaded. */
    method TryUnloadMSBuildProject(unloadThrows: bool) returns (unloaded: bool)
      requires Valid()
      modifies this`msbuildProject, this`msbuildLookup
      ensures Valid()
      ensures !old(HasMSBuildProject()) ==>
                unloaded && msbuildProject == old(msbuildProject) && msbuildLookup == old(msbuildLookup)
      ensures old(HasMSBuildProject()) ==> unloaded == !unloadThrows && UnloadedFrom(old(msbuildProject), unloadThrows)
    {
      if !HasMSBuildProject() {
        return true;
      }
      // a loaded project implies a collection, so the null check on the collection never fires
      assert msbuildProjectCollection.Some?;
      msbuildLookup := None;
      if unloadThrows {
        return false;
      }
      msbuildProject := None;
      return true;
    }

    /**
     * The project a load attempt asks the engine for: the loaded project
     * reloaded from the in-memory XML, or else the project file.
     */
    function LoadTarget(project0: Option<MSBuildProject>): MSBuildProject
      reads this
      requires HasXml()
    {
      if project0.Some? then project0.value.(xml := FromText(xml.value)) else MSBuildProject(projectFile, FromFile)
    }

    /**
     * What TryLoadMSBuildProject returns, from the state before it: whether a
     * project was loaded (with the XML), whether the document was dirty, and
     * whether a collection existed.
     */
    static function LoadResult(wasLoaded: bool, wasDirty: bool, hadCollection: bool, engine: Engine): Result<bool>
    {
      if wasLoaded && !wasDirty then Ok(true)
      else if !hadCollection && engine.collectionThrows then Ok(false)
      else match engine.load
        case Succeeds => Ok(true)
        case Throws => Ok(false)
        case ThrowsInvalidProjectFile(message, _, _) =>
          if IsNullOrWhiteSpace(message) then Err(InvalidArgument) else Ok(false)
    }

    /**
     * The state after TryLoadMSBuildProject, from the MSBuild-side state
     * before it (the XML is left as it is).
     */
    ghost predicate LoadAttempted(
      collection0: Option<ProjectCollection>, project0: Option<MSBuildProject>,
      lookup0: Option<PositionalLookup>, diagnostics0: seq<Diagnostic>, wasDirty: bool, engine: Engine)
      reads this
      requires HasXml()
    {
      if project0.Some? && !wasDirty then
        // already loaded and nothing to reconcile: nothing changes
        msbuildProjectCollection == collection0 && msbuildProject == project0 &&
        msbuildLookup == lookup0 && diagnostics == diagnostics0
      else if collection0.None? && engine.collectionThrows then
        // the collection cannot be created: no project was loaded, none is now
        msbuildProjectCollection == None && msbuildProject == project0 &&
        msbuildLookup == lookup0 && diagnostics == diagnostics0
      else
        var target := LoadTarget(project0);
        && msbuildProjectCollection == Some(ProjectCollection(projectDirectory))
        && match engine.load
           case Succeeds =>
             && msbuildProject == Some(target)
             && msbuildLookup == Some(PositionalLookup(target, xml.value, xmlPositions.value))
             && diagnostics == diagnostics0
           case Throws =>
             UnloadedFrom(project0, engine.unloadThrows) && diagnostics == diagnostics0
           case ThrowsInvalidProjectFile(message, range, code) =>
             if IsNullOrWhiteSpace(message) then
               // adding the diagnostic throws: the project is left loaded
               msbuildProject == project0 && msbuildLookup == lookup0 && diagnostics == diagnostics0
             else
               && UnloadedFrom(project0, engine.unloadThrows)
               && diagnostics == diagnostics0 + [NewDiagnostic(Error, message.value, range, code)]
    }

    /**
     * Loads the MSBuild project, or reloads it from the in-memory XML when
     * it is loaded and dirty; does nothing when it is loaded and clean.
     */
    method TryLoadMSBuildProject(engine: Engine) returns (r: Result<bool>)
      requires Valid() && HasXml()
      modifies this`msbuildProjectCollection, this`msbuildProject, this`msbuildLookup, this`diagnostics
      ensures Valid() && HasXml()
      ensures r == LoadResult(old(msbuildProject.Some?), isDirty, old(msbuildProjectCollection.Some?), engine)
      ensures LoadAttempted(old(msbuildProjectCollection), old(msbuildProject), old(msbuildLookup),
                            old(diagnostics), isDirty, engine)
      // the collection is created at most once and never dropped
      ensures old(msbuildProjectCollection).Some? ==> msbuildProjectCollection == old(msbuildProjectCollection)
      // what the answer tells the caller
      ensures r == Ok(true) ==> HasMSBuildProject()
      ensures r == Ok(true) && !(old(HasMSBuildProject()) && !isDirty) ==> msbuildLookup.Some?
      ensures r == Ok(false) ==> msbuildLookup.None? && (msbuildProject.None? || engine.unloadThrows)
      ensures r.Err? ==> r.error == InvalidArgument && diagnostics == old(diagnostics)
    {
      if HasMSBuildProject() && !isDirty {
        return Ok(true);
      }
      if msbuildProjectCollection.None? {
        if engine.collectionThrows {
          var _ := TryUnloadMSBuildProject(engine.unloadThrows);
          return Ok(false);
        }
        msbuildProjectCollection := Some(ProjectCollection(projectDirectory));
      }
      var target := LoadTarget(msbuildProject);
      match engine.load {
        case Succeeds =>
          msbuildProject := Some(target);
          msbuildLookup := Some(PositionalLookup(target, xml.value, xmlPositions.value));
          return Ok(true);
        case ThrowsInvalidProjectFile(message, range, code) =>
          var added := AddErrorDiagnostic(message, range, code);
          if added.Fail? {
            return Err(added.error);
          }
          var _ := TryUnloadMSBuildProject(engine.unloadThrows);
          return Ok(false);
        case Throws =>
          var _ := TryUnloadMSBuildProject(engine.unloadThrows);
          return Ok(false);
      }
    }

    // ---------------------------------------------------------------------
    // Load, Update, Unload
    // ---------------------------------------------------------------------

    /** Loads the project from `text`, the contents of the project file. */
    method Load(text: string, engine: Engine) returns (r: Outcome)
      requires Valid()
      modifies this
      ensures Valid()
      ensures HasXml() && xml == Some(text) && !isDirty
      ensures packageIdCache == old(packageIdCache) && packageVersionCache == old(packageVersionCache)
      ensures r == AsOutcome(LoadResult(old(msbuildProject.Some?), false, old(msbuildProjectCollection.Some?), engine))
      ensures LoadAttempted(old(msbuildProjectCollection), old(msbuildProject), old(msbuildLookup), [], false, engine)
    {
      ClearDiagnostics();
      xml := Some(text);
      xmlPositions := Some(text);
      isDirty := false;
      var loaded := TryLoadMSBuildProject(engine);
      r := AsOutcome(loaded);
    }

    /** Replaces the project's XML with in-memory `text`; null text is refused. */
    method Update(text: Option<string>, engine: Engine) returns (r: Outcome)
      requires Valid()
      modifies this
      ensures Valid()
      ensures text.None? ==> r == Fail(ArgumentNull)
      ensures text.None? ==>
                && xml == old(xml) && xmlPositions == old(xmlPositions) && isDirty == old(isDirty)
                && diagnostics == old(diagnostics) && msbuildProjectCollection == old(msbuildProjectCollection)
                && msbuildProject == old(msbuildProject) && msbuildLookup == old(msbuildLookup)
      ensures packageIdCache == old(packageIdCache) && packageVersionCache == old(packageVersionCache)
      ensures text.Some? ==> HasXml() && xml == text && isDirty
      ensures text.Some? ==>
                r == AsOutcome(LoadResult(old(msbuildProject.Some?), true, old(msbuildProjectCollection.Some?), engine))
      ensures text.Some? ==>
                LoadAttempted(old(msbuildProjectCollection), old(msbuildProject), old(msbuildLookup), [], true, engine)
    {
      if text.None? {
        return Fail(ArgumentNull);
      }
      ClearDiagnostics();
      xml := text;
      xmlPositions := text;
      isDirty := true;
      var loaded := TryLoadMSBuildProject(engine);
      r := AsOutcome(loaded);
    }

    /** Unloads the MSBuild project and the XML. */
    method Unload(unloadThrows: bool)
      requires Valid()
      modifies this
      ensures Valid()
      ensures !HasXml() && !HasMSBuildProject() && !isDirty
      ensures old(HasMSBuildProject()) ==> UnloadedFrom(old(msbuildProject), unloadThrows)
      ensures !old(HasMSBuildProject()) ==> msbuildProject == old(msbuildProject) && msbuildLookup == old(msbuildLookup)
      ensures diagnostics == old(diagnostics) && msbuildProjectCollection == old(msbuildProjectCollection)
      ensures packageIdCache == old(packageIdCache) && packageVersionCache == old(packageVersionCache)
      ensures !old(HasXml()) ==> unchanged(this)
    {
      var _ := TryUnloadMSBuildProject(unloadThrows);
      xml := None;
      xmlPositions := None;
      isDirty := false;
    }

    // ---------------------------------------------------------------------
    // Package suggestions
    // ---------------------------------------------------------------------

    /**
     * Package ids starting with `prefix`: the cached answer if there is one,
     * or else `fetched`, the NuGet query's answer, cached when non-empty.
     */
    method SuggestPackageIds(prefix: string, fetched: set<string>) returns (r: Result<set<string>>)
      requires Valid()
      modifies this`packageIdCache
      ensures Valid()
      ensures !HasXml() ==> r == Err(InvalidOperation) && packageIdCache == old(packageIdCache)
      ensures HasXml() && prefix in old(packageIdCache) ==>
                r == Ok(old(packageIdCache)[prefix]) && packageIdCache == old(packageIdCache)
      ensures HasXml() && prefix !in old(packageIdCache) ==>
                && r == Ok(fetched)
                && packageIdCache == if fetched != {} then old(packageIdCache)[prefix := fetched] else old(packageIdCache)
      ensures forall k :: k in old(packageIdCache) ==> k in packageIdCache && packageIdCache[k] == old(packageIdCache)[k]
    {
      if !HasXml() {
        return Err(InvalidOperation);
      }
      if prefix in packageIdCache {
        return Ok(packageIdCache[prefix]);
      }
      if |fetched| > 0 {
        packageIdCache := packageIdCache[prefix := fetched];
      }
      return Ok(fetched);
    }

    /**
     * Versions of package `packageId`: the cached answer if there is one,
     * or else `fetched`, the NuGet query's answer, cached when non-empty.
     */
    method SuggestPackageVersions(packageId: string, fetched: set<NuGetVersion>) returns (r: Result<set<NuGetVersion>>)
      requires Valid()
      modifies this`packageVersionCache
      ensures Valid()
      ensures !HasXml() ==> r == Err(InvalidOperation) && packageVersionCache == old(packageVersionCache)
      ensures HasXml() && packageId in old(packageVersionCache) ==>
                r == Ok(old(packageVersionCache)[packageId]) && packageVersionCache == old(packageVersionCache)
      ensures HasXml() && packageId !in old(packageVersionCache) ==>
                && r == Ok(fetched)
                && packageVersionCache ==
                     if fetched != {} then old(packageVersionCache)[packageId := fetched] else old(packageVersionCache)
      ensures forall k :: k in old(packageVersionCache) ==>
                k in packageVersionCache && packageVersionCache[k] == old(packageVersionCache)[k]
    {
      if !HasXml() {
        return Err(InvalidOperation);
      }
      if packageId in packageVersionCache {
        return Ok(packageVersionCache[packageId]);
      }
      if |fetched| > 0 {
        packageVersionCache := packageVersionCache[packageId := fetched];
      }
      return Ok(fetched);
    }

    // ---------------------------------------------------------------------
    // Positional queries
    // ---------------------------------------------------------------------

    /**
     * The XML node at `position`, as found by the parsed document's
     * `findNode(xml, xmlPositions, position)`. Throws on a null position and
     * when the XML is not loaded.
     */
    method GetXmlAtPosition(position: Option<Position>, findNode: (string, string, Position) -> Option<SyntaxNodeId>)
      returns (r: Result<Option<SyntaxNodeId>>)
      requires Valid()
      ensures position.None? ==> r == Err(ArgumentNull)
      ensures position.Some? && !HasXml() ==> r == Err(InvalidOperation)
      ensures r.Ok? <==> position.Some? && HasXml()
      ensures r.Ok? ==> r.value == findNode(xml.value, xmlPositions.value, position.value)
    {
      if position.None? {
        return Err(ArgumentNull);
      }
      if !HasXml() {
        return Err(InvalidOperation);
      }
      return Ok(findNode(xml.value, xmlPositions.value, position.value));
    }

    /**
     * The MSBuild object at `position`, as found by the lookup's
     * `find(lookup, position)`; a null position is passed on to the lookup
     * unchecked. Throws when the MSBuild project is not loaded, and
     * dereferences null when the project outlived its lookup.
     */
    method GetMSBuildObjectAtPosition(position: Option<Position>, find: (PositionalLookup, Option<Position>) -> Option<MSBuildObjectId>)
      returns (r: Result<Option<MSBuildObjectId>>)
      requires Valid()
      ensures !HasMSBuildProject() ==> r == Err(InvalidOperation)
      ensures HasMSBuildProject() && msbuildLookup.None? ==> r == Err(NullReference)
      ensures r.Ok? <==> HasMSBuildProject() && msbuildLookup.Some?
      ensures r.Ok? ==> r.value == find(msbuildLookup.value, position)
    {
      if !HasMSBuildProject() {
        return Err(InvalidOperation);
      }
      if msbuildLookup.None? {
        return Err(NullReference);
      }
      return Ok(find(msbuildLookup.value, position));
    }
  }
}
