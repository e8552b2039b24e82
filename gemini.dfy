/**
 * The context assembler (services/geminiService.ts): the persona chosen from the language tag,
 * the bounded project context, and the pure pieces of a chat request — the history handed to the
 * SDK, the composite prompt of the current turn, and the chunks of the reply that are passed on.
 * The SDK client and its network stream are not modelled: the chunks they deliver and whether
 * they failed are parameters.
 */
module Gemini {
  import opened Wrappers
  import opened Strings
  import opened Lists
  import opened Types

  // ---------------------------------------------------------------- persona

  /** The specialised profiles `getSeniorPersona` can append to the base role. */
  datatype Profile = BackendFullstack | Frontend | PythonData | GoSystems | DatabaseArchitect | Polyglot

  /** The profile for a language tag: keyword groups tested in a fixed order on the lower-cased tag, first match wins. */
  function SelectProfile(language: string): Profile
  {
    var lang := ToLower(language);
    if Contains(lang, "type") || Contains(lang, "java") || Contains(lang, "js") || Contains(lang, "node") then BackendFullstack
    else if Contains(lang, "css") || Contains(lang, "html") || Contains(lang, "react") || Contains(lang, "vue") then Frontend
    else if Contains(lang, "python") then PythonData
    else if Contains(lang, "go") || Contains(lang, "golang") then GoSystems
    else if Contains(lang, "sql") || Contains(lang, "prisma") || Contains(lang, "database") then DatabaseArchitect
    else Polyglot
  }

  /** The keyword groups in the order they are tested, each with the profile it selects. */
  const KeywordGroups: seq<(seq<string>, Profile)> := [
    (["type", "java", "js", "node"], BackendFullstack),
    (["css", "html", "react", "vue"], Frontend),
    (["python"], PythonData),
    (["go", "golang"], GoSystems),
    (["sql", "prisma", "database"], DatabaseArchitect)]

  /** Some keyword occurs in `s`. */
  function AnyContains(s: string, keywords: seq<string>): (r: bool)
    ensures r <==> exists k :: 0 <= k < |keywords| && Contains(s, keywords[k])
  {
    if keywords == [] then false
    else
      var rest := AnyContains(s, keywords[1..]);
      assert forall k :: 1 <= k < |keywords| ==> keywords[k] == keywords[1..][k - 1];
      Contains(s, keywords[0]) || rest
  }

  lemma AnyContainsCons(s: string, keyword: string, rest: seq<string>)
    ensures AnyContains(s, [keyword] + rest) == (Contains(s, keyword) || AnyContains(s, rest))
  {
    assert ([keyword] + rest)[1..] == rest;
  }

  /** The profile of the first group at or after `from` with a keyword in `lang`, or the polyglot fallback. */
  function FirstGroupFrom(groups: seq<(seq<string>, Profile)>, lang: string, from: nat): Profile
    requires from <= |groups|
    decreases |groups| - from
  {
    if from == |groups| then Polyglot
    else if AnyContains(lang, groups[from].0) then groups[from].1
    else FirstGroupFrom(groups, lang, from + 1)
  }

  /** The first-match walk answers the profile of the first matching group, or the fallback when none matches. */
  lemma {:induction false} FirstGroupFromSpec(groups: seq<(seq<string>, Profile)>, lang: string, from: nat)
    requires from <= |groups|
    decreases |groups| - from
    ensures (forall k :: from <= k < |groups| ==> !AnyContains(lang, groups[k].0)) ==> FirstGroupFrom(groups, lang, from) == Polyglot
    ensures forall k :: (from <= k < |groups| && AnyContains(lang, groups[k].0) &&
                         forall j :: from <= j < k ==> !AnyContains(lang, groups[j].0))
                        ==> FirstGroupFrom(groups, lang, from) == groups[k].1
  {
    if from < |groups| && !AnyContains(lang, groups[from].0) {
      FirstGroupFromSpec(groups, lang, from + 1);
    }
  }

  /** When no group selects the fallback itself, the walk answers the fallback only if no group matches. */
  lemma {:induction false} FallbackMeansNoMatch(groups: seq<(seq<string>, Profile)>, lang: string, from: nat)
    requires from <= |groups|
    requires forall k :: from <= k < |groups| ==> groups[k].1 != Polyglot
    requires FirstGroupFrom(groups, lang, from) == Polyglot
    decreases |groups| - from
    ensures forall k :: from <= k < |groups| ==> !AnyContains(lang, groups[k].0)
  {
    if from < |groups| {
      FallbackMeansNoMatch(groups, lang, from + 1);
    }
  }

  /**
   * The persona's if/else chain is the first-match walk over the keyword groups on the
   * lower-cased tag, so case does not matter and the groups' order decides overlaps.
   */
  lemma SelectProfileIsFirstMatch(language: string)
    ensures SelectProfile(language) == FirstGroupFrom(KeywordGroups, ToLower(language), 0)
    ensures SelectProfile(language) == SelectProfile(ToLower(language))
    ensures SelectProfile(language) == Polyglot <==>
      forall k :: 0 <= k < |KeywordGroups| ==> !AnyContains(ToLower(language), KeywordGroups[k].0)
  {
    var lang, G := ToLower(language), KeywordGroups;
    ToLowerNormalises(language);
    BackendGroup(lang);
    FrontendGroup(lang);
    LaterGroups(lang);
    assert FirstGroupFrom(G, lang, 4) == if AnyContains(lang, G[4].0) then DatabaseArchitect else Polyglot;
    assert FirstGroupFrom(G, lang, 2) == SelectProfileFromPython(lang);
    FirstGroupFromSpec(G, lang, 0);
    if SelectProfile(language) == Polyglot {
      FallbackMeansNoMatch(G, lang, 0);
    }
  }

  /** The tail of the persona's chain, from the python test on. */
  function SelectProfileFromPython(lang: string): Profile
  {
    if Contains(lang, "python") then PythonData
    else if Contains(lang, "go") || Contains(lang, "golang") then GoSystems
    else if Contains(lang, "sql") || Contains(lang, "prisma") || Contains(lang, "database") then DatabaseArchitect
    else Polyglot
  }

  lemma BackendGroup(lang: string)
    ensures AnyContains(lang, KeywordGroups[0].0) == (Contains(lang, "type") || Contains(lang, "java") || Contains(lang, "js") || Contains(lang, "node"))
  {
    AnyContainsCons(lang, "node", []);
    AnyContainsCons(lang, "js", ["node"]);
    AnyContainsCons(lang, "java", ["js", "node"]);
    AnyContainsCons(lang, "type", ["java", "js", "node"]);
  }

  lemma FrontendGroup(lang: string)
    ensures AnyContains(lang, KeywordGroups[1].0) == (Contains(lang, "css") || Contains(lang, "html") || Contains(lang, "react") || Contains(lang, "vue"))
  {
    AnyContainsCons(lang, "vue", []);
    AnyContainsCons(lang, "react", ["vue"]);
    AnyContainsCons(lang, "html", ["react", "vue"]);
    AnyContainsCons(lang, "css", ["html", "react", "vue"]);
  }

  lemma LaterGroups(lang: string)
    ensures AnyContains(lang, KeywordGroups[2].0) == Contains(lang, "python")
    ensures AnyContains(lang, KeywordGroups[3].0) == (Contains(lang, "go") || Contains(lang, "golang"))
    ensures AnyContains(lang, KeywordGroups[4].0) == (Contains(lang, "sql") || Contains(lang, "prisma") || Contains(lang, "database"))
  {
    AnyContainsCons(lang, "python", []);
    AnyContainsCons(lang, "golang", []);
    AnyContainsCons(lang, "go", ["golang"]);
    AnyContainsCons(lang, "database", []);
    AnyContainsCons(lang, "prisma", ["database"]);
    AnyContainsCons(lang, "sql", ["prisma", "database"]);
  }

  /** "golang" needs no keyword of its own: any tag containing it contains "go". */
  lemma GolangCoveredByGo(lang: string)
    requires Contains(lang, "golang")
    ensures Contains(lang, "go")
  {
    var i: nat :| i <= |lang| && OccursAt(lang, "golang", i);
    assert lang[i..i + 2] == lang[i..i + 6][..2];
    assert OccursAt(lang, "go", i);
  }

  /** Because the backend group is tested first, "javascript" (it contains "java") and "json" (it contains "js") never reach the frontend group. */
  lemma ScriptTagsAreBackend()
    ensures SelectProfile("javascript") == BackendFullstack
    ensures SelectProfile("json") == BackendFullstack
    ensures SelectProfile("TypeScript") == BackendFullstack
  {
    ToLowerNormalises("javascript");
    assert IsLower("javascript");
    assert OccursAt("javascript", "java", 0);
    ToLowerNormalises("json");
    assert IsLower("json");
    assert OccursAt("json", "js", 0);
    assert ToLower("TypeScript") == "typescript";
    assert OccursAt("typescript", "type", 0);
  }

  /** Tags that hold no keyword fall through to the polyglot profile: "markdown", "plaintext" and "rust". */
  lemma MarkdownIsPolyglot()
    ensures SelectProfile("markdown") == Polyglot
  {
    ToLowerNormalises("markdown");
    assert IsLower("markdown");
    MissingCharExcludes("markdown", "type", 0);
    MissingCharExcludes("markdown", "java", 0);
    MissingCharExcludes("markdown", "js", 0);
    MissingCharExcludes("markdown", "node", 3);
    MissingCharExcludes("markdown", "css", 0);
    MissingCharExcludes("markdown", "html", 0);
    MissingCharExcludes("markdown", "react", 1);
    MissingCharExcludes("markdown", "vue", 0);
    MissingCharExcludes("markdown", "python", 0);
    MissingCharExcludes("markdown", "go", 0);
    MissingCharExcludes("markdown", "golang", 0);
    MissingCharExcludes("markdown", "sql", 0);
    MissingCharExcludes("markdown", "prisma", 0);
    MissingCharExcludes("markdown", "database", 2);
  }

  lemma PlaintextIsPolyglot()
    ensures SelectProfile("plaintext") == Polyglot
  {
    ToLowerNormalises("plaintext");
    assert IsLower("plaintext");
    MissingCharExcludes("plaintext", "type", 1);
    MissingCharExcludes("plaintext", "java", 0);
    MissingCharExcludes("plaintext", "js", 0);
    MissingCharExcludes("plaintext", "node", 1);
    MissingCharExcludes("plaintext", "css", 0);
    MissingCharExcludes("plaintext", "html", 0);
    MissingCharExcludes("plaintext", "react", 0);
    MissingCharExcludes("plaintext", "vue", 0);
    MissingCharExcludes("plaintext", "python", 1);
    MissingCharExcludes("plaintext", "go", 0);
    MissingCharExcludes("plaintext", "golang", 0);
    MissingCharExcludes("plaintext", "sql", 0);
    MissingCharExcludes("plaintext", "prisma", 1);
    MissingCharExcludes("plaintext", "database", 0);
  }

  lemma RustIsPolyglot()
    ensures SelectProfile("rust") == Polyglot
  {
    ToLowerNormalises("rust");
    assert IsLower("rust");
    MissingCharExcludes("rust", "type", 1);
    MissingCharExcludes("rust", "java", 0);
    MissingCharExcludes("rust", "js", 0);
    MissingCharExcludes("rust", "node", 0);
    MissingCharExcludes("rust", "css", 0);
    MissingCharExcludes("rust", "html", 0);
    MissingCharExcludes("rust", "react", 1);
    MissingCharExcludes("rust", "vue", 0);
    MissingCharExcludes("rust", "python", 0);
    MissingCharExcludes("rust", "go", 0);
    MissingCharExcludes("rust", "golang", 0);
    MissingCharExcludes("rust", "sql", 1);
    MissingCharExcludes("rust", "prisma", 0);
    MissingCharExcludes("rust", "database", 0);
  }

  const BaseRole := "\nIDENTIDADE: Você é o DevBuddyBot, um Arquiteto de Software e Tech Lead Sênior.\n"

  /** The specialised text of each profile (opaque constants; only their headings are kept here). */
  function ProfileText(p: Profile): string
  {
    match p
    case BackendFullstack => "\nPERFIL TÉCNICO: STAFF BACKEND/FULLSTACK ENGINEER (NODE.JS/TS).\n"
    case Frontend => "\nPERFIL TÉCNICO: PRINCIPAL FRONTEND ENGINEER & UX SPECIALIST.\n"
    case PythonData => "\nPERFIL TÉCNICO: SENIOR PYTHON ENGINEER (BACKEND & DATA).\n"
    case GoSystems => "\nPERFIL TÉCNICO: SYSTEMS ENGINEER (GOLANG).\n"
    case DatabaseArchitect => "\nPERFIL TÉCNICO: DATABASE ARCHITECT.\n"
    case Polyglot => "\nPERFIL TÉCNICO: ARQUITETO DE SOLUÇÕES POLIGLOTA.\n"
  }

  /** `getSeniorPersona`: the base role, a newline, then the selected profile. */
  function SeniorPersona(language: string): string
  {
    BaseRole + "\n" + ProfileText(SelectProfile(language))
  }

  /** Every persona is the base role, a newline and exactly one profile: the selected one. */
  lemma PersonaHasOneProfile(language: string, p: Profile)
    ensures StartsWith(SeniorPersona(language), BaseRole + "\n")
    ensures SeniorPersona(language) == BaseRole + "\n" + ProfileText(p) <==> p == SelectProfile(language)
  {
    var q := SelectProfile(language);
    if BaseRole + "\n" + ProfileText(p) == BaseRole + "\n" + ProfileText(q) {
      var n := |BaseRole + "\n"|;
      assert ProfileText(p) == (BaseRole + "\n" + ProfileText(p))[n..];
      ProfileTextsDistinct(p, q);
    }
  }

  lemma ProfileTextsDistinct(p: Profile, q: Profile)
    requires ProfileText(p) == ProfileText(q)
    ensures p == q
  {
  }

  // ---------------------------------------------------------------- project context

  /** At most this many tree paths are listed. */
  const TreeListingCap: nat := 500

  /** One "- path" line per item, in order. */
  function Bullets(items: seq<GitTreeItem>): (lines: seq<string>)
    ensures |lines| == |items|
    ensures forall i :: 0 <= i < |items| ==> lines[i] == "- " + items[i].path
  {
    if items == [] then [] else ["- " + items[0].path] + Bullets(items[1..])
  }

  /** The listing lines: the first `TreeListingCap` items of the tree in their given order. */
  function TreeLines(tree: seq<GitTreeItem>): seq<string>
  {
    Bullets(tree[..if |tree| <= TreeListingCap then |tree| else TreeListingCap])
  }

  /** The note that follows a truncated listing; empty when nothing was left out. */
  function OverflowNote(treeSize: nat): string
  {
    if treeSize > TreeListingCap then "\n... (+ " + NatToString(treeSize - TreeListingCap) + " arquivos)" else ""
  }

  /** The delimited block that carries one open file: its path, its language and its full content. */
  function FileBlock(f: ProjectFile): string
  {
    "\n--- CONTEÚDO DO ARQUIVO: " + f.path + " (" + f.language + ") ---\n```" + f.language + "\n"
    + f.content
    + "\n```\n--- FIM DO ARQUIVO: " + f.path + " ---\n"
  }

  function FileBlocks(files: seq<ProjectFile>): (blocks: seq<string>)
    ensures |blocks| == |files|
    ensures forall i :: 0 <= i < |files| ==> blocks[i] == FileBlock(files[i])
  {
    if files == [] then [] else [FileBlock(files[0])] + FileBlocks(files[1..])
  }

  const StructureHeading := "\nESTRUTURA DE ARQUIVOS DO REPOSITÓRIO (GIT):\n"
  const OpenFilesHeading := "\n\nARQUIVOS ABERTOS/CARREGADOS NA IDE (Com Conteúdo):\n"

  /** The part of the context before the open files: the capped tree listing and its overflow note, between the two headings. */
  function ContextHead(tree: seq<GitTreeItem>): string
  {
    StructureHeading + Join(TreeLines(tree), "\n") + OverflowNote(|tree|) + OpenFilesHeading
  }

  /** `formatProjectContext`: the capped tree listing with its overflow note, then one block per open file. */
  function FormatProjectContext(openFiles: seq<ProjectFile>, tree: seq<GitTreeItem>): string
  {
    ContextHead(tree) + Join(FileBlocks(openFiles), "\n") + "\n"
  }

  /** The listing has min(|tree|, 500) lines, line i naming item i; only the first 500 items matter. */
  lemma TreeLinesBound(tree: seq<GitTreeItem>, more: seq<GitTreeItem>)
    ensures |TreeLines(tree)| <= TreeListingCap
    ensures |TreeLines(tree)| == if |tree| <= TreeListingCap then |tree| else TreeListingCap
    ensures forall i :: 0 <= i < |TreeLines(tree)| ==> TreeLines(tree)[i] == "- " + tree[i].path
    ensures |tree| >= TreeListingCap ==> TreeLines(tree + more) == TreeLines(tree)
  {
    if |tree| >= TreeListingCap {
      assert (tree + more)[..TreeListingCap] == tree[..TreeListingCap];
    }
  }

  /** The note appears exactly when the tree exceeds the cap, and the number it prints reads back as the count left out. */
  lemma OverflowNoteReportsRest(treeSize: nat)
    ensures OverflowNote(treeSize) == "" <==> treeSize <= TreeListingCap
    ensures treeSize > TreeListingCap ==>
      exists digits :: OverflowNote(treeSize) == "\n... (+ " + digits + " arquivos)" &&
        (forall i :: 0 <= i < |digits| ==> '0' <= digits[i] <= '9') && DecimalValue(digits) == treeSize - TreeListingCap
  {
    if treeSize > TreeListingCap {
      DecimalRoundTrip(treeSize - TreeListingCap);
    }
  }

  /** A tree of 501 entries lists 500 paths and notes "+ 1". */
  lemma OneOverCap(tree: seq<GitTreeItem>)
    requires |tree| == 501
    ensures |TreeLines(tree)| == 500
    ensures OverflowNote(|tree|) == "\n... (+ 1 arquivos)"
  {
  }

  /** Without a tree the context still forms: both listing parts are empty. */
  lemma EmptyTreeContext(openFiles: seq<ProjectFile>)
    ensures FormatProjectContext(openFiles, []) == StructureHeading + OpenFilesHeading + Join(FileBlocks(openFiles), "\n") + "\n"
  {
    assert TreeLines([]) == [];
  }

  /** Each open file's full, untruncated content is in its block, and its block is in the context. */
  lemma ContextCarriesOpenFiles(openFiles: seq<ProjectFile>, tree: seq<GitTreeItem>, i: nat)
    requires i < |openFiles|
    ensures Contains(FileBlock(openFiles[i]), openFiles[i].content)
    ensures Contains(FormatProjectContext(openFiles, tree), FileBlock(openFiles[i]))
    ensures Contains(FormatProjectContext(openFiles, tree), openFiles[i].content)
  {
    var f := openFiles[i];
    var pre := "\n--- CONTEÚDO DO ARQUIVO: " + f.path + " (" + f.language + ") ---\n```" + f.language + "\n";
    var post := "\n```\n--- FIM DO ARQUIVO: " + f.path + " ---\n";
    assert OccursAt(f.content, f.content, 0);
    ContainsInConcat(pre, f.content, post, f.content);
    assert FileBlock(f) == pre + f.content + post;
    var blocks := FileBlocks(openFiles);
    JoinContainsPart(blocks, "\n", i);
    ContainsInConcat(ContextHead(tree), Join(blocks, "\n"), "\n", FileBlock(f));
    ContainsTransitive(FormatProjectContext(openFiles, tree), FileBlock(f), f.content);
  }

  /** In a join, part i lies wholly before the place where a later part j starts. */
  lemma JoinKeepsOrder(parts: seq<string>, sep: string, i: nat, j: nat) returns (before: string, after: string)
    requires i < j < |parts|
    ensures Join(parts, sep) == before + after
    ensures Contains(before, parts[i]) && StartsWith(after, parts[j])
  {
    JoinAt(parts, sep, j);
    assert parts[..j][i] == parts[i];
    JoinContainsPart(parts[..j], sep, i);
    JoinStartsWithFirst(parts[j..], sep);
    ContainsInConcat("", Join(parts[..j], sep), sep, parts[i]);
    before, after := Join(parts[..j], sep) + sep, Join(parts[j..], sep);
    assert "" + Join(parts[..j], sep) + sep == before;
  }

  /** Blocks follow the open-file order: block i lies wholly before the place where block j starts. */
  lemma ContextKeepsOpenFileOrder(openFiles: seq<ProjectFile>, tree: seq<GitTreeItem>, i: nat, j: nat) returns (before: string, after: string)
    requires i < j < |openFiles|
    ensures FormatProjectContext(openFiles, tree) == before + after
    ensures Contains(before, FileBlock(openFiles[i])) && StartsWith(after, FileBlock(openFiles[j]))
  {
    var blocks := FileBlocks(openFiles);
    var b, a := JoinKeepsOrder(blocks, "\n", i, j);
    before, after := ContextHead(tree) + b, a + "\n";
    assert FormatProjectContext(openFiles, tree) == before + after by {
      assert FormatProjectContext(openFiles, tree) == ContextHead(tree) + (b + a) + "\n";
    }
    assert Contains(before, blocks[i]) by {
      ContainsInConcat(ContextHead(tree), b, "", blocks[i]);
      assert ContextHead(tree) + b + "" == before;
    }
    assert StartsWith(after, blocks[j]) by {
      assert after[..|blocks[j]|] == a[..|blocks[j]|];
    }
  }

  lemma {:induction false} JoinStartsWithFirst(parts: seq<string>, sep: string)
    requires |parts| >= 1
    ensures StartsWith(Join(parts, sep), parts[0])
  {
    if |parts| > 1 {
      assert (parts[0] + sep + Join(parts[1..], sep))[..|parts[0]|] == parts[0];
    }
  }

  lemma ContainsTransitive(a: string, b: string, c: string)
    requires Contains(a, b) && Contains(b, c)
    ensures Contains(a, c)
  {
    var i: nat :| i <= |a| && OccursAt(a, b, i);
    var j: nat :| j <= |b| && OccursAt(b, c, j);
    forall k | 0 <= k < |c|
      ensures a[i + j + k] == c[k]
    {
      assert a[i + j + k] == a[i..i + |b|][j + k];
      assert c[k] == b[j..j + |c|][k];
    }
    assert OccursAt(a, c, i + j);
  }

  // ---------------------------------------------------------------- request pieces

  /** One turn of the history in the SDK's shape. */
  datatype Part = Part(text: string)
  datatype Content = Content(role: string, parts: seq<Part>)

  /** The history handed to the SDK: the role "model" stays "model", every other role becomes "user", the content is one text part. */
  function SdkHistory(history: seq<Message>): (contents: seq<Content>)
    ensures |contents| == |history|
    ensures forall i :: 0 <= i < |history| ==>
      contents[i].role == (if history[i].role == Model then "model" else "user") && contents[i].parts == [Part(history[i].content)]
  {
    if history == [] then [] else [Content(if history[0].role == Model then "model" else "user", [Part(history[0].content)])] + SdkHistory(history[1..])
  }

  /** What a reader of the SDK history recovers: each turn's role and text. */
  function ReplayedTurns(contents: seq<Content>): seq<(Role, string)>
  {
    seq(|contents|, i requires 0 <= i < |contents| =>
      (if contents[i].role == "model" then Model else User, if |contents[i].parts| == 1 then contents[i].parts[0].text else ""))
  }

  /** The mapping loses nothing: replaying it gives every past message's role and raw content, in order. */
  lemma SdkHistoryRoundTrip(history: seq<Message>)
    ensures ReplayedTurns(SdkHistory(history)) == seq(|history|, i requires 0 <= i < |history| => (history[i].role, history[i].content))
  {
    var replayed, expected := ReplayedTurns(SdkHistory(history)), seq(|history|, i requires 0 <= i < |history| => (history[i].role, history[i].content));
    var contents := SdkHistory(history);
    assert |replayed| == |contents| == |history| == |expected|;
    forall i | 0 <= i < |history|
      ensures replayed[i] == expected[i]
    {
      assert contents[i].parts == [Part(history[i].content)];
      assert contents[i].role == (if history[i].role == Model then "model" else "user");
    }
  }

  const FocusHeading := "\n\nARQUIVO ATUALMENTE EM FOCO: "
  const InstructionsAndQuestionHeading := "\n\nINSTRUÇÕES DE INTERAÇÃO: (cinco regras fixas)\n\nPERGUNTA DO USUÁRIO:\n"

  /** The composite message of the current turn: persona, context, focused path, fixed instructions, then the question. */
  function ContextAwarePrompt(persona: string, context: string, focusPath: string, question: string): string
  {
    "\n" + persona + "\n\nCONTEXTO DO AMBIENTE DE DESENVOLVIMENTO:\n" + context + FocusHeading + focusPath
    + InstructionsAndQuestionHeading + question + "\n"
  }

  /** The question is the prompt's tail (before the final newline), and persona and context are inside it. */
  lemma PromptCarriesQuestion(persona: string, context: string, focusPath: string, question: string)
    ensures var p := ContextAwarePrompt(persona, context, focusPath, question);
      |p| > |question| && p[|p| - |question| - 1..|p| - 1] == question && p[|p| - 1] == '\n'
    ensures StartsWith(ContextAwarePrompt(persona, context, focusPath, question), "\n" + persona)
    ensures Contains(ContextAwarePrompt(persona, context, focusPath, question), context)
  {
    var p := ContextAwarePrompt(persona, context, focusPath, question);
    var a := "\n" + persona + "\n\nCONTEXTO DO AMBIENTE DE DESENVOLVIMENTO:\n";
    var c := FocusHeading + focusPath + InstructionsAndQuestionHeading + question + "\n";
    assert p == a + context + c;
    assert OccursAt(context, context, 0);
    ContainsInConcat(a, context, c, context);
    assert p[..|"\n" + persona|] == "\n" + persona;
  }

  /** What `streamGeminiResponse` hands the SDK for one turn. */
  datatype Request = Request(history: seq<Content>, message: string)

  function BuildRequest(history: seq<Message>, currentMessage: string, currentFile: ProjectFile,
                        openFiles: seq<ProjectFile>, tree: seq<GitTreeItem>): Request
  {
    var persona := SeniorPersona(currentFile.language);
    var context := FormatProjectContext(openFiles, tree);
    Request(SdkHistory(history), ContextAwarePrompt(persona, context, currentFile.path, currentMessage))
  }

  /** Past turns go to the SDK raw; only the current turn is wrapped with persona and context. */
  lemma RequestWrapsOnlyCurrentTurn(history: seq<Message>, currentMessage: string, currentFile: ProjectFile,
                                    openFiles: seq<ProjectFile>, tree: seq<GitTreeItem>)
    ensures var r := BuildRequest(history, currentMessage, currentFile, openFiles, tree);
      ReplayedTurns(r.history) == seq(|history|, i requires 0 <= i < |history| => (history[i].role, history[i].content))
      && StartsWith(r.message, "\n" + SeniorPersona(currentFile.language))
      && Contains(r.message, FormatProjectContext(openFiles, tree))
      && r.message[|r.message| - |currentMessage| - 1..|r.message| - 1] == currentMessage
  {
    SdkHistoryRoundTrip(history);
    PromptCarriesQuestion(SeniorPersona(currentFile.language), FormatProjectContext(openFiles, tree), currentFile.path, currentMessage);
  }

  // ---------------------------------------------------------------- reply stream

  /** One streamed response piece; its `text` may be missing. */
  datatype Chunk = Chunk(text: Option<string>)

  /** A chunk whose text is passed on: present and non-empty. */
  function CarriesText(): Chunk -> bool
  {
    (c: Chunk) => c.text.Some? && c.text.value != ""
  }

  /** The texts passed on: the texts of exactly the chunks that carry one, one each, in arrival order. */
  function YieldedTexts(chunks: seq<Chunk>): (texts: seq<string>)
    ensures forall i :: 0 <= i < |texts| ==> texts[i] != ""
    ensures |texts| == |Filter(chunks, CarriesText())| <= |chunks|
    ensures forall i :: 0 <= i < |texts| ==> Filter(chunks, CarriesText())[i].text == Some(texts[i])
  {
    if chunks == [] then []
    else
      var rest := YieldedTexts(chunks[1..]);
      if chunks[0].text.Some? && chunks[0].text.value != "" then
        assert CarriesText()(chunks[0]);
        [chunks[0].text.value] + rest
      else
        rest
  }

  /** All the text the chunks carried, missing texts counting as empty. */
  function ChunkText(chunks: seq<Chunk>): string
  {
    if chunks == [] then "" else (if chunks[0].text.Some? then chunks[0].text.value else "") + ChunkText(chunks[1..])
  }

  /** Skipping the empty chunks loses no text: the passed-on pieces add up to everything the stream carried. */
  lemma {:induction false} SkippingEmptyChunksKeepsText(chunks: seq<Chunk>)
    ensures ConcatAll(YieldedTexts(chunks)) == ChunkText(chunks)
  {
    if chunks != [] {
      SkippingEmptyChunksKeepsText(chunks[1..]);
      var head := if chunks[0].text.Some? && chunks[0].text.value != "" then [chunks[0].text.value] else [];
      ConcatAllAppend(head, YieldedTexts(chunks[1..]));
    }
  }

  const ApologyText := "Desculpe, encontrei um erro ao analisar o projeto. Verifique sua conexão ou a chave de API."

  /** What the generator yields: the non-empty chunk texts received before any failure, then the apology if the call failed. */
  function StreamOutput(chunks: seq<Chunk>, failed: bool): (out: seq<string>)
    ensures |out| == |YieldedTexts(chunks)| + (if failed then 1 else 0)
    ensures out[..|YieldedTexts(chunks)|] == YieldedTexts(chunks)
    ensures failed ==> out[|out| - 1] == ApologyText
    ensures forall i :: 0 <= i < |out| ==> out[i] != ""
  {
    YieldedTexts(chunks) + (if failed then [ApologyText] else [])
  }
}
