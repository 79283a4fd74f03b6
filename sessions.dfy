/**
 * Sequences of calls on one ProjectDocument, as the language server makes
 * them over an editing session, and what the document promises across them.
 */
module Sessions {
  import opened Wrappers
  import opened ModelConversions
  import opened Documents

  const ProjectPath := "/src/app/app.csproj"
  const ProjectDirectory := "/src/app"

  /** An engine that loads and unloads without trouble. */
  const Healthy := Engine(false, Succeeds, false)

  /**
   * A project file the engine rejects is loaded as XML only, with one error
   * diagnostic carrying the engine's message, range and code; a later
   * successful load clears it.
   */
  method RejectedThenFixed() returns (first: Outcome, reported: seq<Diagnostic>, second: Outcome, loaded: bool)
    ensures first == Pass && second == Pass
    ensures reported == [Diagnostic(Error, "MSB4025", "The project file could not be loaded.", None, ProjectPath)]
    ensures loaded
  {
    var doc := new ProjectDocument(ProjectPath, ProjectDirectory);
    var rejecting := Engine(false, ThrowsInvalidProjectFile(Some("The project file could not be loaded."), None, "MSB4025"), false);
    assert !IsNullOrWhiteSpace(rejecting.load.baseMessage) by {
      assert !IsWhiteSpace(rejecting.load.baseMessage.value[0]);
    }
    first := doc.Load("<Project", rejecting);
    assert doc.HasXml() && !doc.HasMSBuildProject();
    reported := doc.diagnostics;
    second := doc.Load("<Project />", Healthy);
    loaded := doc.HasMSBuildProject() && !doc.HasDiagnostics();
  }

  /**
   * An invalid-project error whose message is blank cannot be reported:
   * adding the diagnostic throws out of Load, and nothing is published.
   */
  method BlankMessageEscapes() returns (r: Outcome, published: seq<Diagnostic>)
    ensures r == Fail(InvalidArgument)
    ensures published == []
  {
    var doc := new ProjectDocument(ProjectPath, ProjectDirectory);
    var blank := Engine(false, ThrowsInvalidProjectFile(Some(" \t"), None, "MSB4025"), false);
    assert IsNullOrWhiteSpace(Some(" \t"));
    r := doc.Load("<Project", blank);
    published := doc.diagnostics;
  }

  /**
   * Editing a loaded project reloads it from the in-memory XML; the lookup
   * then covers the edited text.
   */
  method EditReloadsFromText() returns (r: Outcome, project: Option<MSBuildProject>, lookup: Result<PositionalLookup>)
    ensures r == Pass
    ensures project == Some(MSBuildProject(ProjectPath, FromText("<Project></Project>")))
    ensures lookup.Ok? && lookup.value.xml == "<Project></Project>" && Some(lookup.value.project) == project
  {
    var doc := new ProjectDocument(ProjectPath, ProjectDirectory);
    var _ := doc.Load("<Project />", Healthy);
    r := doc.Update(Some("<Project></Project>"), Healthy);
    project := doc.msbuildProject;
    lookup := doc.MSBuildLookup();
  }

  /**
   * When a reload fails and unloading then throws too, the project stays
   * while its lookup is gone. Reloading the same file afterwards returns
   * early (the project is loaded and no longer dirty), so MSBuild queries
   * dereference the missing lookup.
   */
  method StaleProjectWithoutLookup(position: Option<Position>, find: (PositionalLookup, Option<Position>) -> Option<MSBuildObjectId>)
    returns (edit: Outcome, reload: Outcome, query: Result<Option<MSBuildObjectId>>)
    ensures edit == Pass && reload == Pass
    ensures query == Err(NullReference)
  {
    var doc := new ProjectDocument(ProjectPath, ProjectDirectory);
    var _ := doc.Load("<Project />", Healthy);
    edit := doc.Update(Some("<Project>"), Engine(false, Throws, true));
    assert doc.msbuildProject.Some? && doc.msbuildLookup.None?;
    reload := doc.Load("<Project />", Healthy);
    query := doc.GetMSBuildObjectAtPosition(position, find);
  }

  /**
   * Package suggestions are cached per prefix once non-empty, and an empty
   * answer is never cached.
   */
  method SuggestionCaching() returns (a: Result<set<string>>, b: Result<set<string>>, c: Result<set<string>>, d: Result<set<string>>)
    ensures a == Ok({}) && b == Ok({"Newtonsoft.Json"})
    ensures c == Ok({"Newtonsoft.Json"}) && d == Ok({"Newtonsoft.Json"})
  {
    var doc := new ProjectDocument(ProjectPath, ProjectDirectory);
    var _ := doc.Load("<Project />", Healthy);
    a := doc.SuggestPackageIds("Newton", {});
    b := doc.SuggestPackageIds("Newton", {"Newtonsoft.Json"});
    c := doc.SuggestPackageIds("Newton", {});
    d := doc.SuggestPackageIds("Newton", {"Newtonsoft.Json.Bson"});
  }

  /**
   * After Unload, nothing that needs the XML is available, and a second
   * Unload changes nothing.
   */
  method UnloadedDocument(position: Position, findNode: (string, string, Position) -> Option<SyntaxNodeId>)
    returns (xml: Result<string>, node: Result<Option<SyntaxNodeId>>, ids: Result<set<string>>, same: bool)
    ensures xml == Err(InvalidOperation) && node == Err(InvalidOperation) && ids == Err(InvalidOperation)
    ensures same
  {
    var doc := new ProjectDocument(ProjectPath, ProjectDirectory);
    var _ := doc.Load("<Project />", Healthy);
    doc.Unload(false);
    xml := doc.Xml();
    node := doc.GetXmlAtPosition(Some(position), findNode);
    ids := doc.SuggestPackageIds("Newton", {"Newtonsoft.Json"});
    var before := (doc.xml, doc.msbuildProject, doc.msbuildLookup, doc.diagnostics);
    doc.Unload(false);
    same := before == (doc.xml, doc.msbuildProject, doc.msbuildLookup, doc.diagnostics);
  }
}
