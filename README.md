# DevBuddyBot IDE — a verified model of its core

DevBuddyBot is a browser IDE that connects to a GitHub repository, shows its file tree, opens
files in tabs, and runs an AI pair-programming chat. The chat is grounded in the repository's
structure and in the files that are open. This project models, in Dafny, the four parts of that
program that hold its logic:

- **`github.dfy` (`GitHub`, from `services/githubService.ts`).** This is the pure side of the
  repository adapter:
  - the request headers;
  - the choice of the ref whose tree is fetched;
  - the case-insensitive binary-extension blacklist;
  - the first-match suffix-to-language table;
  - the filter that keeps only text blobs of a fetched tree.
- **`gemini.dfy` (`Gemini`, from `services/geminiService.ts`).** This is the context assembler:
  - the persona, picked by priority-ordered keyword matching on the lower-cased language tag;
  - the project context, a tree listing capped at 500 paths with an overflow note, followed by one delimited block per open file;
  - the pure pieces of a chat request: the history handed to the SDK, the composite prompt of the current turn, and the rule that passes on only non-empty chunks.
- **`workspace.dfy` (`Workspace`, from `App.tsx`).** The component state becomes the class
  `Workspace.App`: files, active id, view mode, tree, connected repository, token, repository
  list and filter.
  - Each event handler is one method.
  - The view-mode effect (React runs it after the render whenever `activeFileId` changed) is folded into the step that changed the id.
  - The derived active file, the repository-input parser and the repository filter are functions.
- **`chat.dfy` (`Chat`, from `components/ChatInterface.tsx`).** The chat panel is the class
  `Chat.ChatPanel`. Its `Send` method:
  - checks the send guard;
  - appends the user's message and an empty reply;
  - folds the streamed pieces into that reply by id, in a loop;
  - appends the fallback message when the stream fails.

  `Send` is proved against the specification function `TurnMessages`.

The helper modules hold the JavaScript built-ins the code relies on, with their properties
proved:
- `strings.dfy`: `trim`, `toLowerCase`, `includes`, `indexOf`, `replace`, `split`, `join`, `endsWith`, number rendering;
- `lists.dfy`: `filter`, `findIndex`;
- `types.dfy`: the records of `types.ts`;
- `wrappers.dfy`: the `Option` and `Outcome` results.

Network answers, the SDK's stream and the clock are parameters:
- a fetched tree or file content is an `Outcome` (a value or `Threw`);
- the stream is the sequence of texts it yielded, plus whether it failed;
- message ids are arguments.

### Where the code and the design differ

**Markdown files opened from the tree land in the editor.** The design says such a file opens in
preview. `handleFileClick` (App.tsx:186-190) does ask for preview when the language is markdown.
But the view-mode effect (App.tsx:48-61) runs after that render because `activeFileId` changed.
For a file whose id is its blob sha and whose path is not under `docs/`, the effect sets `editor`.
The model follows the code:
- `Workspace.NewTreeFileOpensInEditor` proves that the outcome is the editor whatever the handler chose.
- `Workspace.TreeFileWithSameIdKeepsHandlerMode` shows that the handler's choice survives only when the sha was already the active id.

**An edit can be lost after a reset.** Logout and "Fechar" reset the files but keep
`activeFileId`. After either one, the editor shows `files[0]` as a fallback
(`Workspace.ResetShowsWelcome`). An edit reported while a stale id is active changes no file:
the last clause of `Workspace.EditSpec` proves that the file list stays as it was.

**The chat's error branch is practically unreachable.** `streamGeminiResponse` catches its own
errors and yields an apology text (geminiService.ts:163-166), so the chat panel's `catch`
(ChatInterface.tsx:101-108) rarely fires. Both are modelled:
- `Gemini.StreamOutput` covers the apology;
- the `failed` parameter of `Chat.ChatPanel.Send` covers the fallback message.

## Model

| member | source | states |
|---|---|---|
| GitHub.AuthHeaders | services/githubService.ts:8-13 | the headers of every API request; their properties are in HeadersCarryToken |
| GitHub.TargetRef | services/githubService.ts:56-68 | the ref whose tree is fetched; its cases are in TargetRefChoice |
| GitHub.IsBinary | services/githubService.ts:114-117 | the blacklist test on the lower-cased path; see AnyEndsWith and IsBinaryIgnoresCase |
| GitHub.DetectLanguage | services/githubService.ts:119-130 | the suffix if-chain; the result is always a known tag (DetectLanguageIsFirstMatch) |
| GitHub.TextBlobs | services/githubService.ts:86-88 | the two filters of the fetched tree; see TextBlobsSpec |
| GitHub.HeadersCarryToken | services/githubService.ts:8-13 | the Authorization header is "Bearer " followed by the token, which reads back unchanged; the JSON media type is accepted; the raw-content headers differ only in accepting the raw media type |
| GitHub.TargetRefChoice | services/githubService.ts:55-68 | a non-empty branch is the ref verbatim and the lookup is ignored; without one (absent or empty), a throwing lookup leaves "main" and an answering lookup decides alone: its default branch, or no ref at all when the answer has none |
| GitHub.RawContentHeaders | services/githubService.ts:100-104 | the file-content headers: the common ones with the raw media type; see HeadersCarryToken |
| GitHub.AnyEndsWith | services/githubService.ts:116 | `some(endsWith)` holds exactly when one of the extensions is a suffix |
| GitHub.IsBinaryIgnoresCase | services/githubService.ts:114-117 | the blacklist classifies a path and its lower-cased form alike |
| GitHub.UpperCaseImageIsBinary | services/githubService.ts:114-117 | "LOGO.PNG" is binary and "README.md" is not |
| GitHub.DetectLanguageIsFirstMatch | services/githubService.ts:119-130 | the if-chain equals a first-match walk over the 12 suffix rules; the tag is always one of the 11 tags; it is "plaintext" exactly when no rule's suffix matches |
| GitHub.FirstMatchFromSpec | services/githubService.ts:119-130 | the walk returns the tag of the first matching rule, and "plaintext" when none matches |
| GitHub.DetectLanguageIsCaseSensitive | services/githubService.ts:119-130 | "README.MD" is "plaintext", unlike the case-blind blacklist |
| GitHub.DetectLanguageMarkdown | services/githubService.ts:129 | "README.md" is "markdown" |
| GitHub.DetectLanguageJsxTsx | services/githubService.ts:120-121 | ".tsx" gives "typescript" and ".jsx" gives "javascript" |
| GitHub.IsBlobItem | services/githubService.ts:87 | the first filter's test: the item is a blob |
| GitHub.IsTextPath | services/githubService.ts:88 | the second filter's test: the path is not binary |
| GitHub.TextBlobsSpec | services/githubService.ts:86-88 | the two filters keep exactly the blobs whose path is not binary, as an order-preserving subsequence of the tree; no `tree` entry survives |
| GitHub.TextBlobsConcat | services/githubService.ts:86-88 | filtering a listing in two parts filters each part in place |
| GitHub.TextBlobsKeepsTextListing | services/githubService.ts:86-88 | a listing of text blobs only is returned unchanged |
| Gemini.SelectProfile | services/geminiService.ts:11-72 | the persona's keyword if-chain on the lower-cased tag; see SelectProfileIsFirstMatch |
| Gemini.SeniorPersona | services/geminiService.ts:74 | base role, newline, selected profile text; see PersonaHasOneProfile |
| Gemini.FormatProjectContext | services/geminiService.ts:80-102 | structure heading, capped listing, overflow note, open-files heading, file blocks; see ContextCarriesOpenFiles and ContextKeepsOpenFileOrder |
| Gemini.ContextAwarePrompt | services/geminiService.ts:119-136 | the composite message of the current turn; see PromptCarriesQuestion |
| Gemini.BuildRequest | services/geminiService.ts:116-154 | the SDK history plus the wrapped current message; see RequestWrapsOnlyCurrentTurn |
| Gemini.ProfileText | services/geminiService.ts:33-72 | the heading of each profile's text (abbreviated); see ProfileTextsDistinct and PersonaHasOneProfile |
| Gemini.TreeLines | services/geminiService.ts:83 | the first 500 tree paths as bullet lines; see TreeLinesBound |
| Gemini.OverflowNote | services/geminiService.ts:84 | the note naming how many paths were left out; see OverflowNoteReportsRest |
| Gemini.FileBlock | services/geminiService.ts:87-93 | one open file's delimited block with its path, language and full content; see ContextCarriesOpenFiles |
| Gemini.ContextHead | services/geminiService.ts:95-101 | the context up to the file blocks: structure heading, listing, note, open-files heading; see EmptyTreeContext |
| Gemini.CarriesText | services/geminiService.ts:158 | the chunk test `if (c.text)`: the text is present and non-empty |
| Gemini.ChunkText | services/geminiService.ts:156-161 | all the text the chunks carried; see SkippingEmptyChunksKeepsText |
| Gemini.SelectProfileIsFirstMatch | services/geminiService.ts:11-72 | the persona's if-chain is the first-match walk over the keyword groups (backend, frontend, python, go, database) on the lower-cased tag; the tag's case does not matter; the polyglot profile is chosen exactly when no group has a keyword in the tag |
| Gemini.FirstGroupFromSpec | services/geminiService.ts:33-72 | the walk gives the first matching group's profile, and the polyglot profile when no group matches |
| Gemini.FallbackMeansNoMatch | services/geminiService.ts:67-72 | conversely, when no group selects polyglot itself, a polyglot answer means no group matched |
| Gemini.AnyContains | services/geminiService.ts:33 | a group matches exactly when one of its keywords occurs in the tag |
| Gemini.GolangCoveredByGo | services/geminiService.ts:55 | every tag containing "golang" already contains "go" |
| Gemini.ScriptTagsAreBackend | services/geminiService.ts:33-41 | "javascript", "json" and "TypeScript" get the backend/fullstack profile, never frontend |
| Gemini.MarkdownIsPolyglot | services/geminiService.ts:67-72 | "markdown" matches no keyword and gets the polyglot profile |
| Gemini.PlaintextIsPolyglot | services/geminiService.ts:67-72 | "plaintext" gets the polyglot profile |
| Gemini.RustIsPolyglot | services/geminiService.ts:67-72 | "rust" gets the polyglot profile |
| Gemini.PersonaHasOneProfile | services/geminiService.ts:74 | the persona is the base role, a newline and one profile text, and that profile is the selected one |
| Gemini.Bullets | services/geminiService.ts:83 | one line per item, in order, line i being "- " followed by item i's path |
| Gemini.TreeLinesBound | services/geminiService.ts:83 | the listing has min(length, 500) lines naming the first items in order; items past the 500th never affect it |
| Gemini.OverflowNoteReportsRest | services/geminiService.ts:84 | the note is non-empty exactly when the tree has more than 500 entries, and its decimal number reads back as length − 500 |
| Gemini.OneOverCap | services/geminiService.ts:83-84 | a 501-entry tree lists 500 paths and notes "+ 1" |
| Gemini.EmptyTreeContext | services/geminiService.ts:95-101 | an empty tree still yields the context, with an empty listing and no note |
| Gemini.FileBlocks | services/geminiService.ts:87-93 | one block per open file, in open-file order |
| Gemini.ContextCarriesOpenFiles | services/geminiService.ts:87-101 | every open file's full, untruncated content is in its block, and the block is in the context |
| Gemini.ContextKeepsOpenFileOrder | services/geminiService.ts:87-101 | for files i < j, block i lies wholly before the point where block j starts |
| Gemini.SdkHistory | services/geminiService.ts:138-141 | same length and order; role "model" stays "model", every other role becomes "user"; one text part holding the content |
| Gemini.SdkHistoryRoundTrip | services/geminiService.ts:138-141 | replaying the SDK history gives back every message's role and content |
| Gemini.PromptCarriesQuestion | services/geminiService.ts:119-136 | the prompt starts with the persona, contains the context, and ends with the question followed by a newline |
| Gemini.RequestWrapsOnlyCurrentTurn | services/geminiService.ts:116-154 | past turns go to the SDK raw; only the current message is wrapped in persona, context and question |
| Gemini.YieldedTexts | services/geminiService.ts:156-161 | one text per chunk whose text is present and non-empty, in arrival order: the i-th text passed on is the text of the i-th such chunk; every text passed on is non-empty |
| Gemini.SkippingEmptyChunksKeepsText | services/geminiService.ts:156-161 | skipping missing or empty texts loses no text: the passed-on pieces concatenate to everything the stream carried |
| Gemini.StreamOutput | services/geminiService.ts:156-166 | the output is the passed-on pieces, then the apology exactly when the call failed; every piece is non-empty |
| Workspace.ActiveFile | App.tsx:36 | `files.find(id) \|\| files[0]`; see ActiveFileSpec |
| Workspace.EffectViewMode | App.tsx:48-61 | the view-mode effect: preview under "docs/", unchanged for welcome and readme, editor otherwise |
| Workspace.ModeAfterRender | App.tsx:48-61 | the effect runs only when the active id changed; see NewTreeFileOpensInEditor and TreeFileWithSameIdKeepsHandlerMode |
| Workspace.TreeFile | App.tsx:176-182 | the tab of a tree entry: sha id, last path segment, detected language, fetched content |
| Workspace.DocFile | App.tsx:199-205 | the tab of a documentation page, under "docs/" + id |
| Workspace.WithoutId | App.tsx:216 | the files left after a close; see WithoutIdSpec |
| Workspace.WithContent | App.tsx:230 | the files after an edit; see EditSpec |
| Workspace.CleanRepoString | App.tsx:131 | trim, drop the first URL prefix, strip one trailing '/'; see CleanUrl and ParseUrl |
| Workspace.ParseRepoString | App.tsx:131-135 | owner and name, or nothing for fewer than two parts; see ParseRefusesWithoutSlash |
| Workspace.HasId | App.tsx:36 | the `f.id === id` test of the active-file lookup |
| Workspace.FirstWithId | App.tsx:36 | `files.find(f => f.id === id)` as a position; its first-match property is Lists.FirstIndex's |
| Workspace.FirstWithPath | App.tsx:165 | `files.find(f => f.path === item.path)` as a position; see Workspace.App.OpenTreeFile |
| Workspace.ChatFile | App.tsx:247-253 | `activeFile \|\| dummyFile`; see ChatFileSpec |
| Workspace.ReadmeFile | App.tsx:108-114 | the synthetic README tab, id "readme", markdown; see ConnectedReadmeIsPreviewed |
| Workspace.RepoReadme | App.tsx:108-114 | the README of a connected repository of the user's: name, branch, privacy |
| Workspace.PublicReadme | App.tsx:144-150 | the README of a public repository opened by name |
| Workspace.NextActiveId | App.tsx:219-224 | the last remaining file's id, or "" when none remains; see WithoutIdSpec |
| Workspace.StripTrailingSlash | App.tsx:131 | `replace(/\/$/, '')`: one trailing '/' dropped; see CleanUrl |
| Workspace.FilteredRepos | App.tsx:243 | the repository filter; see FilteredReposSpec |
| Workspace.MatchesQuery | App.tsx:243 | the filter's test: the lower-cased full name contains the query |
| Workspace.App.Active | App.tsx:36 | the file the editor shows in the current state; see Workspace.App.Logout |
| Workspace.App.VisibleRepos | App.tsx:243 | the repositories listed under the current filter; see FilteredReposSpec |
| Workspace.ActiveFileSpec | App.tsx:36 | there is an active file exactly when a file is open: the first file with the active id, else the first file |
| Workspace.ChatFileSpec | App.tsx:247-253 | the chat sees the placeholder file when nothing is open, and otherwise one of the open files |
| Workspace.ResetShowsWelcome | App.tsx:36 | after a reset to the initial files, the welcome page is shown whatever id stayed active |
| Workspace.NewTreeFileOpensInEditor | App.tsx:48-61 | a tree file whose sha was not active and not held, outside `docs/`, ends in the editor even when the handler asked for preview |
| Workspace.TreeFileWithSameIdKeepsHandlerMode | App.tsx:186-190 | when the sha was already the active id the effect does not run, and the mode is preview exactly for markdown |
| Workspace.NewDocIsPreviewed | App.tsx:193-212 | a newly opened documentation page is previewed |
| Workspace.ConnectedReadmeIsPreviewed | App.tsx:108-117 | after connecting a repository, the synthetic README is previewed whatever was active |
| Workspace.WithoutIdSpec | App.tsx:214-226 | closing keeps exactly the files with another id, in order; the count drops by the number of files with the id; the next active id differs from the closed one |
| Workspace.CloseSingleTab | App.tsx:216 | when one tab carries the id, exactly that file goes |
| Workspace.EditSpec | App.tsx:228-232 | count, order and all fields but content are kept; every file with the active id gets the new content and every other file stays exactly as it was; with the active id held, the shown file gets the new content; with a stale id, nothing changes |
| Workspace.ParseRefusesWithoutSlash | App.tsx:131-135 | the input is refused exactly when its cleaned form has no '/' |
| Workspace.ParseCleaned | App.tsx:133-135 | a cleaned "owner/name" yields those two parts |
| Workspace.ParsePlainName | App.tsx:131-135 | "owner/name" parses back to its parts |
| Workspace.ParseUrl | App.tsx:131-135 | "https://github.com/owner/name/" parses to the same parts: prefix removed, one trailing slash stripped |
| Workspace.FilteredReposSpec | App.tsx:243 | keeps exactly the repositories whose lower-cased full name contains the lower-cased filter, in order; the filter's case is irrelevant; an empty filter keeps all |
| Workspace.App.constructor | App.tsx:12-33 | the welcome file, active and previewed; no token, repository, tree, repository list or filter |
| Workspace.App.Login | App.tsx:63-86 | a non-empty, validated token is kept; the repository list follows only if its request succeeds; nothing else changes |
| Workspace.App.Logout | App.tsx:88-97 | clears token, repositories, tree and connected repository; resets the files; the active id and view mode stay; the welcome page is shown |
| Workspace.App.CloseRepo | App.tsx:475 | disconnects the repository and resets the files; the active id stays; the welcome page is shown |
| Workspace.App.SetRepoFilter | App.tsx:422 | the filter becomes the typed text |
| Workspace.App.LoadRepo | App.tsx:99-125 | without a token or with a failed fetch nothing changes; otherwise the tree becomes the listing's text blobs, the repository is connected, and the synthetic README is the only file, active and previewed |
| Workspace.App.OpenPublicRepo | App.tsx:127-162 | no token, an unparsable input or a failed fetch changes nothing; otherwise it connects "owner/name", shows the public README in preview and clears the filter |
| Workspace.App.OpenTreeFile | App.tsx:164-191 | an already open path is only focused; otherwise one file (id = sha, last path segment, detected language) is appended and made active, the effect deciding the mode; a failed fetch changes nothing |
| Workspace.App.OpenDoc | App.tsx:193-212 | deduplicates on "doc-" + id; a new page is appended under "docs/" + id and previewed; an open page is focused and stays previewed exactly when it was already active or its path is under "docs/", as every page opened here is |
| Workspace.ExistingDocIsPreviewed | App.tsx:194-199 | refocusing an open "doc-" tab ends in preview exactly when the id was already active or the tab's path is under "docs/" (the effect of App.tsx:48-61 otherwise forces the editor) |
| Workspace.App.CloseFile | App.tsx:214-226 | removes every file with the id; if it was active, focus moves to the last remaining file or to ""; otherwise the active id and mode stay |
| Workspace.App.EditActive | App.tsx:228-232 | an undefined value or an empty active id changes nothing; otherwise files with the active id get the new content |
| Workspace.App.SwitchTab | App.tsx:537 | the clicked id becomes active and the effect sets the mode |
| Chat.WelcomeMessage | components/ChatInterface.tsx:17-24 | the first greeting, naming the repository or "Local" |
| Chat.RepoGreeting | components/ChatInterface.tsx:41-46 | the greeting that replaces the conversation on a repository change |
| Chat.Accepts | components/ChatInterface.tsx:55 | the send guard; see AcceptsSpec |
| Chat.Placeholder | components/ChatInterface.tsx:72-80 | the empty model reply appended before the first piece |
| Chat.Opened | components/ChatInterface.tsx:57-80 | the user's message, then the empty reply, after the earlier messages; see TurnSpec |
| Chat.Streaming | components/ChatInterface.tsx:90-99 | the reply showing the concatenation of the pieces received so far; see ReplyGrowsByPrefix and Chat.ChatPanel.Send |
| Chat.AfterRepoChange | components/ChatInterface.tsx:39-48 | a non-empty repository name replaces the conversation by its greeting |
| Chat.ReplaceContent | components/ChatInterface.tsx:93-98 | the `map` that rewrites the reply by id; see ReplaceContentSpec |
| Chat.TurnMessages | components/ChatInterface.tsx:54-110 | the messages at the end of a turn; see TurnSpec and Chat.ChatPanel.Send |
| Chat.AcceptsSpec | components/ChatInterface.tsx:55 | a send is refused exactly when loading or when the input is white space only, e.g. " \t\n" |
| Chat.ReplaceContentSpec | components/ChatInterface.tsx:93-98 | replacing by id keeps count, order, ids and roles; a later replacement overrides an earlier one; an absent id changes nothing |
| Chat.ReplaceContentAppend | components/ChatInterface.tsx:93-98 | replacement distributes over concatenation |
| Chat.TurnSpec | components/ChatInterface.tsx:54-110 | with a fresh reply id, a turn adds 2 messages (3 on failure) and keeps every earlier one; the user message is the untrimmed input; the reply holds all pieces in order; on failure the fallback follows the reply |
| Chat.ReplyGrowsByPrefix | components/ChatInterface.tsx:90-99 | what the reply shows only grows by extension |
| Chat.ChatPanel.constructor | components/ChatInterface.tsx:17-48 | one model greeting: the welcome, or the repository greeting once a repository is connected; empty input, not loading; the repository name is remembered for the reset effect |
| Chat.ChatPanel.SetInput | components/ChatInterface.tsx:214 | the input becomes the typed text |
| Chat.ChatPanel.Clear | components/ChatInterface.tsx:122-124 | no messages remain |
| Chat.ChatPanel.RepoChanged | components/ChatInterface.tsx:39-48 | the reset effect runs only when the name differs from the previous render's: a changed non-empty name replaces the conversation by its greeting; an unchanged name (the same repository reconnected) or an empty one keeps it; the name is remembered |
| Chat.ChatPanel.OpenTurn | components/ChatInterface.tsx:57-80 | appends the user message and the empty reply; clears the input; sets loading |
| Chat.ChatPanel.ShowReply | components/ChatInterface.tsx:90-99 | messages with the reply id show the whole text received so far |
| Chat.ChatPanel.CloseTurn | components/ChatInterface.tsx:101-110 | the fallback message is appended only after a failure; loading stops either way |
| Chat.ChatPanel.Send | components/ChatInterface.tsx:54-113 | a refused send changes nothing and hands nothing upstream; an accepted one hands upstream the conversation as it was before the send, ends with `TurnMessages`, an empty input and loading off |
| Strings.Trim | App.tsx:131 | the result is the input minus white-space runs at both ends, and it starts and ends with non-white space |
| Strings.TrimEmptyIff | components/ChatInterface.tsx:55 | trimming gives "" exactly for white-space-only input |
| Strings.ToLower | services/geminiService.ts:12 | `toLowerCase` on ASCII letters; see ToLowerNormalises |
| Strings.ReplaceFirst | App.tsx:131 | `replace` with a string pattern: the first occurrence only; see ReplaceFirstOfPrefix and ReplaceFirstAbsent |
| Strings.ReplaceFirstOfPrefix | App.tsx:131 | a string starting with the pattern loses exactly that prefix |
| Strings.ReplaceFirstAbsent | App.tsx:131 | a string without the pattern is unchanged |
| Strings.Split | App.tsx:132 | `split` on one character: at least one part, none holding the separator; see JoinSplit and SplitJoin |
| Strings.Join | services/geminiService.ts:83 | `join`; see JoinSplit, JoinAt and JoinContainsPart |
| Strings.NatToString | services/geminiService.ts:84 | decimal rendering of a count; see DecimalRoundTrip |
| Strings.ConcatAll | components/ChatInterface.tsx:90-92 | the text accumulated by `fullResponseText += chunk`; see ConcatAllAppend |
| Strings.ConcatAllAppend | components/ChatInterface.tsx:90-92 | accumulating two runs of pieces is accumulating each in turn |
| Strings.IndexOf | App.tsx:131 | the first occurrence, or −1 exactly when there is none |
| Strings.JoinSplit | App.tsx:132 | joining the parts of a split restores the string |
| Strings.SplitJoin | App.tsx:132 | splitting a join of separator-free parts restores the parts |
| Strings.SplitSingleIff | App.tsx:134 | a split has one part exactly when the separator is absent |
| Strings.LastSegment | App.tsx:178 | the name is the whole path exactly when the path has no '/' or ends in '/'; otherwise it is the non-empty, '/'-free suffix that follows the last '/' |
| Strings.ToLowerNormalises | services/geminiService.ts:12 | lower-casing yields lower case, fixes lower-case text and is idempotent |
| Strings.DecimalRoundTrip | services/geminiService.ts:84 | the decimal rendering of a count reads back as that count |
| Lists.Filter | services/githubService.ts:86-88 | keeps exactly the elements satisfying the predicate and never grows |
| Lists.FilterIsSubsequence | services/githubService.ts:86-88 | filtering keeps relative order |
| Lists.FilterTwice | services/githubService.ts:86-88 | two filters in a row equal one filter with both conditions |
| Lists.FirstIndex | App.tsx:165 | the first position satisfying the predicate, or none when no element does |

## Left out

- The HTTP calls `validateToken`, `getUserRepos`, the fetches inside `fetchRepoTree`, and `fetchFileContent` are not modelled. Their answers or failures are parameters. The "truncated" warning on a large tree is console output and is also left out.
- Gemini SDK client creation, `chats.create`, `sendMessageStream`, the model name, the system instruction and the temperature are foreign calls and configuration. The stream is given as the texts it yielded plus whether it failed.
- Workspace.App.OpenDoc: an already open tab with id "doc-" + id whose path is not under "docs/" (only a tree file whose blob sha is literally "doc-…", which a hex sha never is) is left in the editor by the effect. The contract states that case as the code behaves.
- Gemini.ProfileText: the persona, prompt and instruction texts are Portuguese literals. They are kept only as their heading lines, as opaque constants, and only their structure is proved.
- localStorage token persistence, `alert`, `console` and the input focus timers are browser side effects. The login modal, `user` and `authError` are rendering state.
- Asynchronous interleaving is not modelled: overlapping handlers, stale closures, results arriving after logout. Each handler is one atomic step.
- `Date.now()` ids and `new Date()` timestamps come from the clock. Ids are parameters, and the model never claims they are distinct. Lemmas that need a fresh id take that as a hypothesis.
- JSX rendering, `getFileIcon`, `showPublicRepoOption`, the sidebar, components/MarkdownPreview.tsx and components/CodeEditor.tsx are presentation only.
- Workspace.App.Login: `tokenOverride || tokenInput` is reduced to its result, the token to use. The token check is a boolean parameter.
- Strings.ToLower: lower-casing maps ASCII letters only. JavaScript's full Unicode case mapping is not modelled.
- Gemini.SelectProfile inherits that limit: only ASCII case is ignored.
- The chat panel's unmounting and remounting when the layout changes is not modelled: each panel starts from its constructor.
