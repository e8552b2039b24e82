/**
 * The workspace of the IDE (App.tsx): the open files, the active tab, the editor/preview mode,
 * the connected repository and its tree. Each event handler is one atomic step of the class;
 * the view-mode effect, which React runs after the render whenever `activeFileId` changed, is
 * folded into the step that changed it. Network results reach the steps as parameters.
 */
module Workspace {
  import opened Wrappers
  import opened Strings
  import opened Lists
  import opened Types
  import GitHub

  datatype ViewMode = Editor | Preview

  const WelcomeText :=
    "# DevBuddyBot IDE\n\nBem-vindo ao seu ambiente de desenvolvimento integrado com IA.\n\n### Você está conectado!\nAgora você tem acesso aos seus repositórios públicos e privados.\n\n### Como usar:\n1. No painel esquerdo \"Meus Repositórios\", selecione um projeto.\n2. O Agente carregará a estrutura e estará pronto para ajudar.\n3. Clique nos arquivos para editar.\n\n### Dica:\nO Agente (Gemini) lê o contexto de todos os arquivos que você abre. Para uma refatoração completa, abra os arquivos relevantes antes de pedir ajuda."

  /** The files a fresh or reset workspace shows: the single welcome page. */
  const InitialFiles: seq<ProjectFile> := [ProjectFile("welcome", "BEM_VINDO.md", "markdown", WelcomeText, "BEM_VINDO.md")]

  // ---------------------------------------------------------------- derivations

  function HasId(id: string): ProjectFile -> bool
  {
    (f: ProjectFile) => f.id == id
  }

  function FirstWithId(files: seq<ProjectFile>, id: string): Option<nat>
  {
    FirstIndex(files, HasId(id))
  }

  function FirstWithPath(files: seq<ProjectFile>, path: string): Option<nat>
  {
    FirstIndex(files, (f: ProjectFile) => f.path == path)
  }

  /** The file the editor shows: the first with the active id, else the first file, else none. */
  function ActiveFile(files: seq<ProjectFile>, activeId: string): Option<ProjectFile>
  {
    match FirstWithId(files, activeId)
    case Some(k) => Some(files[k])
    case None => if |files| > 0 then Some(files[0]) else None
  }

  /** There is an active file exactly when a file is open; it is the first carrying the active id, or the first file when none does. */
  lemma ActiveFileSpec(files: seq<ProjectFile>, activeId: string)
    ensures ActiveFile(files, activeId).None? <==> files == []
    ensures forall k :: (0 <= k < |files| && files[k].id == activeId && forall j :: 0 <= j < k ==> files[j].id != activeId)
                        ==> ActiveFile(files, activeId) == Some(files[k])
    ensures (forall k :: 0 <= k < |files| ==> files[k].id != activeId) && files != [] ==> ActiveFile(files, activeId) == Some(files[0])
  {
    var r := FirstWithId(files, activeId);
    forall k | 0 <= k < |files| && files[k].id == activeId && forall j :: 0 <= j < k ==> files[j].id != activeId
      ensures ActiveFile(files, activeId) == Some(files[k])
    {
      assert r.Some?;
      if r.value < k {
        assert files[r.value].id == activeId;
      } else if r.value > k {
        assert files[k].id == activeId;
      }
    }
  }

  /** The placeholder the chat panel is given when no file is open. */
  const DummyFile := ProjectFile("none", "Nenhum arquivo", "plaintext", "", "")

  /** The file the chat panel is told is in focus: the active file, or the placeholder. */
  function ChatFile(files: seq<ProjectFile>, activeId: string): ProjectFile
  {
    match ActiveFile(files, activeId)
    case Some(f) => f
    case None => DummyFile
  }

  /** The chat panel sees the placeholder when nothing is open, and otherwise one of the open files. */
  lemma ChatFileSpec(files: seq<ProjectFile>, activeId: string)
    ensures files == [] ==> ChatFile(files, activeId) == DummyFile
    ensures files != [] ==> ChatFile(files, activeId) in files
  {
    ActiveFileSpec(files, activeId);
  }

  /** The view mode after the view-mode effect has run for the active file. */
  function EffectViewMode(active: Option<ProjectFile>, current: ViewMode): ViewMode
  {
    match active
    case None => current
    case Some(f) =>
      if StartsWith(f.path, "docs/") then Preview
      else if f.id == "welcome" || f.id == "readme" then current
      else Editor
  }

  /** The view mode once a step has rendered: the effect runs only when the active id differs from the one before the step. */
  function ModeAfterRender(previousId: string, files: seq<ProjectFile>, activeId: string, mode: ViewMode): ViewMode
  {
    if activeId != previousId then EffectViewMode(ActiveFile(files, activeId), mode) else mode
  }

  // ---------------------------------------------------------------- new files

  /** The file opened from a tree entry: identified by its blob sha, named by its last path segment. */
  function TreeFile(item: GitTreeItem, content: string): ProjectFile
  {
    ProjectFile(item.sha, LastSegment(item.path), GitHub.DetectLanguage(item.path), content, item.path)
  }

  /** The tab of a documentation page. */
  function DocFile(doc: DocSection): ProjectFile
  {
    ProjectFile("doc-" + doc.id, doc.title + ".md", "markdown", doc.content, "docs/" + doc.id)
  }

  function ReadmeFile(content: string): ProjectFile
  {
    ProjectFile("readme", "README.md", "markdown", content, "README.md")
  }

  /** The synthetic README shown after connecting one of the user's repositories. */
  function RepoReadme(repo: GitHubRepo): ProjectFile
  {
    ReadmeFile("# " + repo.fullName + "\n\nRepositório carregado no DevBuddyBot.\nBranch: " + repo.defaultBranch
               + "\nPrivado: " + (if repo.isPrivate then "Sim" else "Não"))
  }

  /** The synthetic README shown after opening a public repository by name. */
  function PublicReadme(owner: string, name: string): ProjectFile
  {
    ReadmeFile("# " + owner + "/" + name + "\n\nRepositório Público carregado.\n(Modo de acesso via busca pública)")
  }

  /**
   * A tree file the workspace did not hold by id opens in the editor even when it is markdown:
   * the handler asks for preview, but the effect, run because the active id changed, overrides it.
   */
  lemma NewTreeFileOpensInEditor(previousId: string, files: seq<ProjectFile>, item: GitTreeItem, content: string)
    requires item.sha != previousId
    requires forall k :: 0 <= k < |files| ==> files[k].id != item.sha
    requires !StartsWith(item.path, "docs/") && item.sha != "welcome" && item.sha != "readme"
    ensures ModeAfterRender(previousId, files + [TreeFile(item, content)], item.sha, Preview) == Editor
    ensures ModeAfterRender(previousId, files + [TreeFile(item, content)], item.sha, Editor) == Editor
  {
    var all := files + [TreeFile(item, content)];
    ActiveFileSpec(all, item.sha);
    assert all[|files|] == TreeFile(item, content);
  }

  /** A tree file whose sha was already the active id keeps the mode the handler chose: preview exactly for markdown. */
  lemma TreeFileWithSameIdKeepsHandlerMode(files: seq<ProjectFile>, item: GitTreeItem, content: string)
    ensures var mode := if GitHub.DetectLanguage(item.path) == "markdown" then Preview else Editor;
      ModeAfterRender(item.sha, files + [TreeFile(item, content)], item.sha, mode) == mode
  {
  }

  /** A newly opened documentation page is always previewed. */
  lemma NewDocIsPreviewed(previousId: string, files: seq<ProjectFile>, doc: DocSection, mode: ViewMode)
    requires forall k :: 0 <= k < |files| ==> files[k].id != "doc-" + doc.id
    ensures ModeAfterRender(previousId, files + [DocFile(doc)], "doc-" + doc.id, Preview) == Preview
  {
    var all := files + [DocFile(doc)];
    ActiveFileSpec(all, "doc-" + doc.id);
    assert all[|files|] == DocFile(doc);
    assert ("docs/" + doc.id)[..5] == "docs/";
  }

  /**
   * Focusing a documentation tab that is already open: the mode stays preview exactly when the
   * id was already active or the tab's path is under `docs/`, which holds for every tab `DocFile` makes.
   */
  lemma ExistingDocIsPreviewed(previousId: string, files: seq<ProjectFile>, docId: string)
    requires FirstWithId(files, "doc-" + docId).Some?
    ensures ModeAfterRender(previousId, files, "doc-" + docId, Preview) == Preview <==>
      previousId == "doc-" + docId || StartsWith(files[FirstWithId(files, "doc-" + docId).value].path, "docs/")
  {
    var id := "doc-" + docId;
    var k := FirstWithId(files, id).value;
    assert ActiveFile(files, id) == Some(files[k]);
    assert id[0] == 'd';
    assert id != "welcome" && id != "readme" by {
      assert "welcome"[0] == 'w' && "readme"[0] == 'r';
    }
  }

  /** After connecting a repository the synthetic README is previewed, whatever was active before. */
  lemma ConnectedReadmeIsPreviewed(previousId: string, readme: string)
    ensures ModeAfterRender(previousId, [ReadmeFile(readme)], "readme", Preview) == Preview
  {
  }

  // ---------------------------------------------------------------- list updates

  /** The files left after closing the tab `id`. */
  function WithoutId(files: seq<ProjectFile>, id: string): seq<ProjectFile>
  {
    Filter(files, (f: ProjectFile) => f.id != id)
  }

  /** The id that becomes active when the active tab is closed: the last remaining file's, or "" when none remains. */
  function NextActiveId(remaining: seq<ProjectFile>): string
  {
    if |remaining| > 0 then remaining[|remaining| - 1].id else ""
  }

  /** Closing removes every file with the id, keeps the others in order, and moves focus off the closed id. */
  lemma WithoutIdSpec(files: seq<ProjectFile>, id: string)
    ensures forall f :: f in WithoutId(files, id) <==> f in files && f.id != id
    ensures IsSubsequence(WithoutId(files, id), files)
    ensures |WithoutId(files, id)| == |files| - Count(files, HasId(id))
    ensures WithoutId(files, id) != [] ==> NextActiveId(WithoutId(files, id)) != id
  {
    FilterIsSubsequence(files, (f: ProjectFile) => f.id != id);
    FilterLength(files, (f: ProjectFile) => f.id != id, HasId(id));
    var rest := WithoutId(files, id);
    if rest != [] {
      assert rest[|rest| - 1] in rest;
    }
  }

  /** When exactly one tab carries the id, closing it removes exactly one file. */
  lemma CloseSingleTab(files: seq<ProjectFile>, id: string, k: nat)
    requires k < |files| && files[k].id == id
    requires forall j :: 0 <= j < |files| && j != k ==> files[j].id != id
    ensures |WithoutId(files, id)| == |files| - 1
    ensures files[k] !in WithoutId(files, id)
  {
    WithoutIdSpec(files, id);
    CountSingle(files, HasId(id), k);
  }

  /** The files after the editor reports `value` for the active id: only files with that id change, and only their content. */
  function WithContent(files: seq<ProjectFile>, id: string, value: string): seq<ProjectFile>
  {
    seq(|files|, i requires 0 <= i < |files| => if files[i].id == id then files[i].(content := value) else files[i])
  }

  /**
   * An edit keeps count, order and every other field, writes the value into exactly the files
   * carrying the active id and leaves every other file as it was; when a file carries the active id the
   * editor then shows the new content, and when none does (a stale id) the edit is dropped
   * although the editor shows the first file.
   */
  lemma EditSpec(files: seq<ProjectFile>, id: string, value: string)
    ensures |WithContent(files, id, value)| == |files|
    ensures forall i :: 0 <= i < |files| ==> WithContent(files, id, value)[i] == files[i].(content := WithContent(files, id, value)[i].content)
    ensures forall i :: 0 <= i < |files| && files[i].id != id ==> WithContent(files, id, value)[i] == files[i]
    ensures forall i :: 0 <= i < |files| && files[i].id == id ==> WithContent(files, id, value)[i].content == value
    ensures (exists k :: 0 <= k < |files| && files[k].id == id) ==>
      ActiveFile(WithContent(files, id, value), id) == Some(ActiveFile(files, id).value.(content := value))
    ensures (forall k :: 0 <= k < |files| ==> files[k].id != id) ==> WithContent(files, id, value) == files
  {
    var edited := WithContent(files, id, value);
    if exists k :: 0 <= k < |files| && files[k].id == id {
      var k :| 0 <= k < |files| && files[k].id == id;
      var p := FirstWithId(files, id);
      var m := p.value;
      assert forall j :: 0 <= j < m ==> edited[j].id == files[j].id;
      ActiveFileSpec(files, id);
      ActiveFileSpec(edited, id);
    }
  }

  // ---------------------------------------------------------------- repository input

  const GitHubUrlPrefix := "https://github.com/"

  /** Drops one trailing "/", as `replace(/\/$/, '')` does. */
  function StripTrailingSlash(s: string): string
  {
    if |s| > 0 && s[|s| - 1] == '/' then s[..|s| - 1] else s
  }

  /** The cleaned repository input: trimmed, first URL prefix removed, one trailing slash stripped. */
  function CleanRepoString(s: string): string
  {
    StripTrailingSlash(ReplaceFirst(Trim(s), GitHubUrlPrefix, ""))
  }

  /** Owner and name from a repository input, or nothing when the cleaned input has fewer than two `/`-parts. */
  function ParseRepoString(s: string): Option<(string, string)>
  {
    var parts := Split(CleanRepoString(s), '/');
    if |parts| < 2 then None else Some((parts[0], parts[1]))
  }

  /** The input is refused exactly when its cleaned form has no '/'. */
  lemma ParseRefusesWithoutSlash(s: string)
    ensures ParseRepoString(s).None? <==> '/' !in CleanRepoString(s)
  {
    SplitSingleIff(CleanRepoString(s), '/');
  }

  /** An input whose cleaned form is "owner/name" with both parts free of '/' parses to those parts. */
  lemma ParseCleaned(s: string, owner: string, name: string)
    requires '/' !in owner && '/' !in name
    requires CleanRepoString(s) == owner + "/" + name
    ensures ParseRepoString(s) == Some((owner, name))
  {
    assert Join([owner, name], "/") == owner + "/" + name;
    SplitJoin([owner, name], '/');
  }

  /** "owner/name" parses back to its parts. */
  lemma ParsePlainName(owner: string, name: string)
    requires '/' !in owner && '/' !in name
    requires owner != [] && !IsWhiteSpace(owner[0])
    requires name != [] && !IsWhiteSpace(name[|name| - 1])
    ensures ParseRepoString(owner + "/" + name) == Some((owner, name))
  {
    var s := owner + "/" + name;
    assert CleanRepoString(s) == s by {
      TrimUntouched(s);
      SingleSlashHasNoUrl(owner, name);
      ReplaceFirstAbsent(s, GitHubUrlPrefix);
      assert s[|s| - 1] == name[|name| - 1];
    }
    ParseCleaned(s, owner, name);
  }

  /** A pasted URL with a trailing slash parses to the same owner and name. */
  lemma ParseUrl(owner: string, name: string)
    requires '/' !in owner && '/' !in name
    ensures ParseRepoString(GitHubUrlPrefix + owner + "/" + name + "/") == Some((owner, name))
  {
    CleanUrl(owner, name);
    ParseCleaned(GitHubUrlPrefix + owner + "/" + name + "/", owner, name);
  }

  lemma CleanUrl(owner: string, name: string)
    ensures CleanRepoString(GitHubUrlPrefix + owner + "/" + name + "/") == owner + "/" + name
  {
    var rest := owner + "/" + name + "/";
    assert GitHubUrlPrefix + owner + "/" + name + "/" == GitHubUrlPrefix + rest;
    CleanPrefixed(rest);
    assert rest[..|rest| - 1] == owner + "/" + name;
  }

  /** The URL prefix and one trailing slash are cut off a pasted URL. */
  lemma CleanPrefixed(rest: string)
    requires |rest| > 0 && rest[|rest| - 1] == '/'
    ensures CleanRepoString(GitHubUrlPrefix + rest) == rest[..|rest| - 1]
  {
    var s := GitHubUrlPrefix + rest;
    assert Trim(s) == s by {
      assert s[0] == 'h' && s[|s| - 1] == '/';
      TrimUntouched(s);
    }
    ReplaceFirstOfPrefix(GitHubUrlPrefix, rest);
  }

  lemma SingleSlashHasNoUrl(owner: string, name: string)
    requires '/' !in owner && '/' !in name
    ensures !Contains(owner + "/" + name, GitHubUrlPrefix)
  {
    var s := owner + "/" + name;
    forall i: nat | i <= |s|
      ensures !OccursAt(s, GitHubUrlPrefix, i)
    {
      if OccursAt(s, GitHubUrlPrefix, i) {
        assert s[i + 6] == s[i..i + |GitHubUrlPrefix|][6];
        NoAdjacentSlashes(owner, name, i + 6);
      }
    }
  }

  lemma NoAdjacentSlashes(owner: string, name: string, k: nat)
    requires '/' !in owner && '/' !in name
    requires k + 1 < |owner + "/" + name|
    ensures !((owner + "/" + name)[k] == '/' && (owner + "/" + name)[k + 1] == '/')
  {
    var s := owner + "/" + name;
    if k < |owner| {
      assert s[k] == owner[k];
    } else if k > |owner| {
      assert s[k] == name[k - |owner| - 1];
    } else {
      assert s[k + 1] == name[0];
    }
  }

  /** The repositories whose full name contains the filter, compared in lower case. */
  function FilteredRepos(repos: seq<GitHubRepo>, filter: string): seq<GitHubRepo>
  {
    Filter(repos, MatchesQuery(ToLower(filter)))
  }

  function MatchesQuery(query: string): GitHubRepo -> bool
  {
    (r: GitHubRepo) => Contains(ToLower(r.fullName), query)
  }

  /** The repository filter keeps exactly the matching repositories, ignores the filter's case and keeps all when empty. */
  lemma FilteredReposSpec(repos: seq<GitHubRepo>, filter: string)
    ensures forall r :: r in FilteredRepos(repos, filter) <==> r in repos && Contains(ToLower(r.fullName), ToLower(filter))
    ensures FilteredRepos(repos, ToLower(filter)) == FilteredRepos(repos, filter)
    ensures IsSubsequence(FilteredRepos(repos, filter), repos)
    ensures FilteredRepos(repos, "") == repos
  {
    ToLowerNormalises(filter);
    FilterIsSubsequence(repos, MatchesQuery(ToLower(filter)));
    forall i | 0 <= i < |repos|
      ensures MatchesQuery("")(repos[i])
    {
      ContainsEmpty(ToLower(repos[i].fullName));
    }
    assert ToLower("") == "";
    FilterKeepsAll(repos, MatchesQuery(""));
  }

  /** After a reset to the initial files the editor shows the welcome page, whatever id stayed active. */
  lemma ResetShowsWelcome(activeId: string)
    ensures ActiveFile(InitialFiles, activeId) == Some(InitialFiles[0])
  {
  }

  // ---------------------------------------------------------------- the component state

  class App {
    var files: seq<ProjectFile>
    var activeFileId: string
    var viewMode: ViewMode
    var repoTree: seq<GitTreeItem>
    var connectedRepo: string
    var githubToken: string
    var userRepos: seq<GitHubRepo>
    var repoFilter: string

    /** The initial state: the welcome page, previewed, no token and no repository. */
    constructor ()
      ensures files == InitialFiles && activeFileId == "welcome" && viewMode == Preview
      ensures repoTree == [] && connectedRepo == "" && githubToken == "" && userRepos == [] && repoFilter == ""
    {
      files, activeFileId, viewMode := InitialFiles, "welcome", Preview;
      repoTree, connectedRepo, githubToken, userRepos, repoFilter := [], "", "", [], "";
    }

    /** The file the editor shows. */
    function Active(): Option<ProjectFile>
      reads this
    {
      ActiveFile(files, activeFileId)
    }

    /**
     * A successful login keeps the token; the repository list follows when its request succeeds.
     * `validated` is the outcome of the token check.
     */
    method Login(token: string, validated: bool, repos: Outcome<seq<GitHubRepo>>)
      modifies this`githubToken, this`userRepos
      ensures githubToken == if token != "" && validated then token else old(githubToken)
      ensures userRepos == if token != "" && validated && repos.Succeeded? then repos.value else old(userRepos)
    {
      if token == "" || !validated {
        return;
      }
      githubToken := token;
      if repos.Succeeded? {
        userRepos := repos.value;
      }
    }

    /** Logging out clears the session and resets the files, but leaves the active id as it was. */
    method Logout()
      modifies this`githubToken, this`userRepos, this`repoTree, this`connectedRepo, this`files
      ensures githubToken == "" && userRepos == [] && repoTree == [] && connectedRepo == "" && files == InitialFiles
      ensures Active() == Some(InitialFiles[0])
    {
      githubToken, userRepos, repoTree, connectedRepo, files := "", [], [], "", InitialFiles;
      ResetShowsWelcome(activeFileId);
    }

    /** "Fechar": disconnects the repository and resets the files, leaving the active id as it was. */
    method CloseRepo()
      modifies this`connectedRepo, this`repoTree, this`files
      ensures connectedRepo == "" && repoTree == [] && files == InitialFiles
      ensures Active() == Some(InitialFiles[0])
    {
      connectedRepo, repoTree, files := "", [], InitialFiles;
      ResetShowsWelcome(activeFileId);
    }

    method SetRepoFilter(filter: string)
      modifies this`repoFilter
      ensures repoFilter == filter
    {
      repoFilter := filter;
    }

    /** The repositories the sidebar lists under the current filter. */
    function VisibleRepos(): seq<GitHubRepo>
      reads this
    {
      FilteredRepos(userRepos, repoFilter)
    }

    /**
     * Connects one of the user's repositories. `listing` is the raw recursive tree the host
     * returned (or the failure of the request); the workspace keeps its text blobs.
     */
    method LoadRepo(repo: GitHubRepo, listing: Outcome<seq<GitTreeItem>>)
      modifies this`files, this`activeFileId, this`viewMode, this`repoTree, this`connectedRepo
      ensures old(githubToken) == "" || listing.Threw? ==>
        files == old(files) && activeFileId == old(activeFileId) && viewMode == old(viewMode)
        && repoTree == old(repoTree) && connectedRepo == old(connectedRepo)
      ensures old(githubToken) != "" && listing.Succeeded? ==>
        repoTree == GitHub.TextBlobs(listing.value) && connectedRepo == repo.fullName
        && files == [RepoReadme(repo)] && activeFileId == "readme" && viewMode == Preview
    {
      if githubToken == "" || listing.Threw? {
        return;
      }
      var readme := RepoReadme(repo);
      var previousId := activeFileId;
      ConnectedReadmeIsPreviewed(previousId, readme.content);
      repoTree := GitHub.TextBlobs(listing.value);
      connectedRepo := repo.fullName;
      files := [readme];
      activeFileId := "readme";
      viewMode := ModeAfterRender(previousId, files, activeFileId, Preview);
    }

    /** Opens a public repository typed as "owner/name" or pasted as a URL; an input without two parts does nothing. */
    method OpenPublicRepo(input: string, listing: Outcome<seq<GitTreeItem>>)
      modifies this`files, this`activeFileId, this`viewMode, this`repoTree, this`connectedRepo, this`repoFilter
      ensures old(githubToken) == "" || ParseRepoString(input).None? || listing.Threw? ==>
        files == old(files) && activeFileId == old(activeFileId) && viewMode == old(viewMode)
        && repoTree == old(repoTree) && connectedRepo == old(connectedRepo) && repoFilter == old(repoFilter)
      ensures old(githubToken) != "" && ParseRepoString(input).Some? && listing.Succeeded? ==>
        var parsed := ParseRepoString(input).value;
        repoTree == GitHub.TextBlobs(listing.value) && connectedRepo == parsed.0 + "/" + parsed.1
        && files == [PublicReadme(parsed.0, parsed.1)] && activeFileId == "readme" && viewMode == Preview && repoFilter == ""
    {
      if githubToken == "" {
        return;
      }
      var parsed := ParseRepoString(input);
      if parsed.None? || listing.Threw? {
        return;
      }
      var owner, name := parsed.value.0, parsed.value.1;
      var readme := PublicReadme(owner, name);
      var previousId := activeFileId;
      ConnectedReadmeIsPreviewed(previousId, readme.content);
      repoTree := GitHub.TextBlobs(listing.value);
      connectedRepo := owner + "/" + name;
      files := [readme];
      activeFileId := "readme";
      viewMode := ModeAfterRender(previousId, files, activeFileId, Preview);
      repoFilter := "";
    }

    /**
     * Opens a tree entry. A file with the same path is only focused; otherwise the fetched
     * content becomes a new last tab, unless the fetch failed, which changes nothing.
     */
    method OpenTreeFile(item: GitTreeItem, content: Outcome<string>)
      modifies this`files, this`activeFileId, this`viewMode
      ensures FirstWithPath(old(files), item.path).Some? ==>
        var k := FirstWithPath(old(files), item.path).value;
        files == old(files) && activeFileId == old(files)[k].id
        && viewMode == ModeAfterRender(old(activeFileId), files, activeFileId, old(viewMode))
      ensures FirstWithPath(old(files), item.path).None? && content.Threw? ==>
        files == old(files) && activeFileId == old(activeFileId) && viewMode == old(viewMode)
      ensures FirstWithPath(old(files), item.path).None? && content.Succeeded? ==>
        files == old(files) + [TreeFile(item, content.value)] && activeFileId == item.sha
        && viewMode == ModeAfterRender(old(activeFileId), files, item.sha,
                                       if GitHub.DetectLanguage(item.path) == "markdown" then Preview else Editor)
    {
      var existing := FirstWithPath(files, item.path);
      var previousId := activeFileId;
      if existing.Some? {
        activeFileId := files[existing.value].id;
        viewMode := ModeAfterRender(previousId, files, activeFileId, viewMode);
        return;
      }
      if content.Threw? {
        return;
      }
      var newFile := TreeFile(item, content.value);
      files := files + [newFile];
      activeFileId := newFile.id;
      viewMode := ModeAfterRender(previousId, files, activeFileId, if newFile.language == "markdown" then Preview else Editor);
    }

    /**
     * Opens a documentation page in a tab of its own, previewed, or focuses the tab it already
     * has; that tab stays previewed when its path is under `docs/`, as every tab opened here is.
     */
    method OpenDoc(doc: DocSection)
      modifies this`files, this`activeFileId, this`viewMode
      ensures FirstWithId(old(files), "doc-" + doc.id).Some? ==>
        files == old(files) && activeFileId == "doc-" + doc.id
        && viewMode == ModeAfterRender(old(activeFileId), files, activeFileId, Preview)
        && (viewMode == Preview <==>
              (old(activeFileId) == "doc-" + doc.id || StartsWith(files[FirstWithId(files, "doc-" + doc.id).value].path, "docs/")))
      ensures FirstWithId(old(files), "doc-" + doc.id).None? ==>
        files == old(files) + [DocFile(doc)] && activeFileId == "doc-" + doc.id && viewMode == Preview
    {
      var id := "doc-" + doc.id;
      var existing := FirstWithId(files, id);
      var previousId := activeFileId;
      if existing.Some? {
        activeFileId := files[existing.value].id;
        viewMode := ModeAfterRender(previousId, files, activeFileId, Preview);
        ExistingDocIsPreviewed(previousId, files, doc.id);
        return;
      }
      var before := files;
      files := files + [DocFile(doc)];
      activeFileId := id;
      viewMode := ModeAfterRender(previousId, files, activeFileId, Preview);
      NewDocIsPreviewed(previousId, before, doc, Preview);
    }

    /** Closes every tab with the id; when it was active, focus moves to the last remaining tab. */
    method CloseFile(fileId: string)
      modifies this`files, this`activeFileId, this`viewMode
      ensures files == WithoutId(old(files), fileId)
      ensures old(activeFileId) == fileId ==>
        activeFileId == NextActiveId(files) && viewMode == ModeAfterRender(old(activeFileId), files, activeFileId, old(viewMode))
      ensures old(activeFileId) != fileId ==> activeFileId == old(activeFileId) && viewMode == old(viewMode)
    {
      files := WithoutId(files, fileId);
      if activeFileId == fileId {
        var previousId := activeFileId;
        activeFileId := NextActiveId(files);
        viewMode := ModeAfterRender(previousId, files, activeFileId, viewMode);
      }
    }

    /** The editor reports a new value for the active file; an undefined value or an empty active id changes nothing. */
    method EditActive(value: Option<string>)
      modifies this`files
      ensures files == if value.Some? && activeFileId != "" then WithContent(old(files), activeFileId, value.value) else old(files)
    {
      if value.Some? && activeFileId != "" {
        files := WithContent(files, activeFileId, value.value);
      }
    }

    /** A click on a tab. */
    method SwitchTab(id: string)
      modifies this`activeFileId, this`viewMode
      ensures activeFileId == id
      ensures viewMode == ModeAfterRender(old(activeFileId), files, id, old(viewMode))
    {
      var previousId := activeFileId;
      activeFileId := id;
      viewMode := ModeAfterRender(previousId, files, activeFileId, viewMode);
    }
  }
}
