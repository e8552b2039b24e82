/**
 * The pure part of the repository access adapter (services/githubService.ts): request headers,
 * the choice of the ref whose tree is fetched, the binary-path blacklist, the language tag of a
 * path and the filter applied to a fetched tree. The HTTP calls themselves are not modelled:
 * their answers are parameters of the functions that use them.
 */
module GitHub {
  import opened Wrappers
  import opened Strings
  import opened Lists
  import opened Types

  // ---------------------------------------------------------------- headers

  datatype Headers = Headers(authorization: string, accept: string)

  const JsonMediaType := "application/vnd.github.v3+json"
  const RawMediaType := "application/vnd.github.v3.raw"
  const BearerPrefix := "Bearer "

  /** The headers sent with every API call. */
  function AuthHeaders(token: string): Headers
  {
    Headers(BearerPrefix + token, JsonMediaType)
  }

  /** The headers of the file-content call: the common ones with only the media type overridden. */
  function RawContentHeaders(token: string): Headers
  {
    AuthHeaders(token).(accept := RawMediaType)
  }

  /** The token a host reads back from an Authorization header. */
  function BearerToken(h: Headers): Option<string>
  {
    if StartsWith(h.authorization, BearerPrefix) then Some(h.authorization[|BearerPrefix|..]) else None
  }

  /** Both header sets carry the token unchanged; they differ only in the media type they accept. */
  lemma HeadersCarryToken(token: string)
    ensures BearerToken(AuthHeaders(token)) == Some(token)
    ensures BearerToken(RawContentHeaders(token)) == Some(token)
    ensures AuthHeaders(token).accept == JsonMediaType && RawContentHeaders(token).accept == RawMediaType
    ensures RawContentHeaders(token).authorization == AuthHeaders(token).authorization
  {
    assert (BearerPrefix + token)[..|BearerPrefix|] == BearerPrefix;
  }

  // ---------------------------------------------------------------- target ref

  /** What the repository-metadata lookup produced: it threw, or it answered with a `default_branch` field that may be missing. */
  datatype RepoLookup = LookupThrew | LookupAnswered(defaultBranch: Option<string>)

  /**
   * The ref whose tree is fetched. A non-empty branch argument is used as it is; otherwise the ref
   * starts as "main" and is overwritten by whatever the lookup answered, a missing field included
   * (None stands for JavaScript's `undefined`).
   */
  function TargetRef(branch: Option<string>, lookup: RepoLookup): (r: Option<string>)
  {
    var initial := if branch.Some? && branch.value != "" then branch.value else "main";
    if branch.Some? && branch.value != "" then Some(initial)
    else match lookup
      case LookupThrew => Some(initial)
      case LookupAnswered(d) => d
  }

  /**
   * A supplied branch is used verbatim and the lookup is never consulted; without one (absent or
   * empty), a throwing lookup leaves "main" and an answering lookup decides alone, so an answer
   * without a default branch leaves no ref at all.
   */
  lemma TargetRefChoice(branch: string, lookup: RepoLookup, other: RepoLookup)
    ensures branch != "" ==> TargetRef(Some(branch), lookup) == TargetRef(Some(branch), other) == Some(branch)
    ensures TargetRef(None, LookupThrew) == TargetRef(Some(""), LookupThrew) == Some("main")
    ensures forall d :: TargetRef(None, LookupAnswered(d)) == TargetRef(Some(""), LookupAnswered(d)) == d
    ensures TargetRef(None, LookupAnswered(None)) == None
  {
  }

  // ---------------------------------------------------------------- binary paths

  const BinaryExtensions: seq<string> :=
    [".png", ".jpg", ".jpeg", ".gif", ".ico", ".pdf", ".zip", ".woff", ".woff2", ".ttf", ".eot", ".mp4", ".mov"]

  /** `exts.some(ext => s.endsWith(ext))`. */
  function AnyEndsWith(s: string, exts: seq<string>): (r: bool)
    ensures r <==> exists k :: 0 <= k < |exts| && EndsWith(s, exts[k])
  {
    if exts == [] then false
    else
      var rest := AnyEndsWith(s, exts[1..]);
      assert forall k :: 1 <= k < |exts| ==> exts[k] == exts[1..][k - 1];
      EndsWith(s, exts[0]) || rest
  }

  /** The path, lower-cased, ends with one of the blacklisted extensions. */
  predicate IsBinary(path: string)
  {
    AnyEndsWith(ToLower(path), BinaryExtensions)
  }

  /** The blacklist ignores case: a path and its lower-cased form are classified alike. */
  lemma IsBinaryIgnoresCase(path: string)
    ensures IsBinary(path) == IsBinary(ToLower(path))
  {
    ToLowerNormalises(path);
  }

  lemma UpperCaseImageIsBinary()
    ensures IsBinary("LOGO.PNG")
    ensures !IsBinary("README.md")
  {
    assert ToLower("LOGO.PNG") == "logo.png";
    assert EndsWith("logo.png", BinaryExtensions[0]);
    assert ToLower("README.md") == "readme.md";
    forall k | 0 <= k < |BinaryExtensions| ensures !EndsWith("readme.md", BinaryExtensions[k]) {
      MismatchExcludesSuffix("readme.md", BinaryExtensions[k], 0);
    }
  }

  /** A suffix must agree with the string at every distance from the end. */
  lemma MismatchExcludesSuffix(s: string, suffix: string, back: nat)
    requires back < |suffix| && (|suffix| > |s| || suffix[|suffix| - 1 - back] != s[|s| - 1 - back])
    ensures !EndsWith(s, suffix)
  {
  }

  // ---------------------------------------------------------------- languages

  /** `detectLanguage`: the first matching suffix decides, tested case-sensitively. */
  function DetectLanguage(filename: string): string
  {
    if EndsWith(filename, ".ts") || EndsWith(filename, ".tsx") then "typescript"
    else if EndsWith(filename, ".js") || EndsWith(filename, ".jsx") then "javascript"
    else if EndsWith(filename, ".css") then "css"
    else if EndsWith(filename, ".html") then "html"
    else if EndsWith(filename, ".json") then "json"
    else if EndsWith(filename, ".py") then "python"
    else if EndsWith(filename, ".go") then "go"
    else if EndsWith(filename, ".rs") then "rust"
    else if EndsWith(filename, ".java") then "java"
    else if EndsWith(filename, ".md") then "markdown"
    else "plaintext"
  }

  /** The suffix table `detectLanguage` walks, in its order. */
  const LanguageRules: seq<(string, string)> := [
    (".ts", "typescript"), (".tsx", "typescript"), (".js", "javascript"), (".jsx", "javascript"),
    (".css", "css"), (".html", "html"), (".json", "json"), (".py", "python"), (".go", "go"),
    (".rs", "rust"), (".java", "java"), (".md", "markdown")]

  const LanguageTags: set<string> :=
    {"typescript", "javascript", "css", "html", "json", "python", "go", "rust", "java", "markdown", "plaintext"}

  /** The tag of the first rule at or after index `from` whose suffix ends `filename`, or "plaintext" when none does. */
  function FirstMatchFrom(rules: seq<(string, string)>, filename: string, from: nat): (tag: string)
    requires from <= |rules|
    decreases |rules| - from
  {
    if from == |rules| then "plaintext"
    else if EndsWith(filename, rules[from].0) then rules[from].1
    else FirstMatchFrom(rules, filename, from + 1)
  }

  /** The first-match walk answers the tag of the first matching rule, or "plaintext" exactly when no rule matches. */
  lemma {:induction false} FirstMatchFromSpec(rules: seq<(string, string)>, filename: string, from: nat)
    requires from <= |rules|
    decreases |rules| - from
    ensures FirstMatchFrom(rules, filename, from) == "plaintext" || exists k :: from <= k < |rules| && FirstMatchFrom(rules, filename, from) == rules[k].1
    ensures (forall k :: from <= k < |rules| ==> !EndsWith(filename, rules[k].0)) ==> FirstMatchFrom(rules, filename, from) == "plaintext"
    ensures forall k :: (from <= k < |rules| && EndsWith(filename, rules[k].0) &&
                         forall j :: from <= j < k ==> !EndsWith(filename, rules[j].0))
                        ==> FirstMatchFrom(rules, filename, from) == rules[k].1
  {
    if from < |rules| && !EndsWith(filename, rules[from].0) {
      FirstMatchFromSpec(rules, filename, from + 1);
    }
  }

  /** `detectLanguage` is the first-match walk of its table, so it always answers one of 11 tags. */
  lemma DetectLanguageIsFirstMatch(filename: string)
    ensures DetectLanguage(filename) == FirstMatchFrom(LanguageRules, filename, 0)
    ensures DetectLanguage(filename) in LanguageTags
    ensures DetectLanguage(filename) == "plaintext" <==> forall k :: 0 <= k < |LanguageRules| ==> !EndsWith(filename, LanguageRules[k].0)
  {
    var f, R := filename, LanguageRules;
    assert FirstMatchFrom(R, f, 12) == "plaintext";
    assert FirstMatchFrom(R, f, 11) == if EndsWith(f, ".md") then "markdown" else "plaintext";
    assert FirstMatchFrom(R, f, 10) == if EndsWith(f, ".java") then "java" else FirstMatchFrom(R, f, 11);
    assert FirstMatchFrom(R, f, 9) == if EndsWith(f, ".rs") then "rust" else FirstMatchFrom(R, f, 10);
    assert FirstMatchFrom(R, f, 8) == if EndsWith(f, ".go") then "go" else FirstMatchFrom(R, f, 9);
    assert FirstMatchFrom(R, f, 7) == if EndsWith(f, ".py") then "python" else FirstMatchFrom(R, f, 8);
    assert FirstMatchFrom(R, f, 6) == if EndsWith(f, ".json") then "json" else FirstMatchFrom(R, f, 7);
    assert FirstMatchFrom(R, f, 5) == if EndsWith(f, ".html") then "html" else FirstMatchFrom(R, f, 6);
    assert FirstMatchFrom(R, f, 4) == if EndsWith(f, ".css") then "css" else FirstMatchFrom(R, f, 5);
    assert FirstMatchFrom(R, f, 3) == if EndsWith(f, ".jsx") then "javascript" else FirstMatchFrom(R, f, 4);
    assert FirstMatchFrom(R, f, 2) == if EndsWith(f, ".js") then "javascript" else FirstMatchFrom(R, f, 3);
    assert FirstMatchFrom(R, f, 1) == if EndsWith(f, ".tsx") then "typescript" else FirstMatchFrom(R, f, 2);
    assert FirstMatchFrom(R, f, 0) == if EndsWith(f, ".ts") then "typescript" else FirstMatchFrom(R, f, 1);
    FirstMatchFromSpec(R, f, 0);
  }

  /** Matching is case-sensitive, unlike the binary blacklist: an upper-case ".MD" is not markdown. */
  lemma DetectLanguageIsCaseSensitive()
    ensures DetectLanguage("README.MD") == "plaintext"
  {
    var name := "README.MD";
    MismatchExcludesSuffix(name, ".ts", 0);
    MismatchExcludesSuffix(name, ".tsx", 0);
    MismatchExcludesSuffix(name, ".js", 0);
    MismatchExcludesSuffix(name, ".jsx", 0);
    MismatchExcludesSuffix(name, ".css", 0);
    MismatchExcludesSuffix(name, ".html", 0);
    MismatchExcludesSuffix(name, ".json", 0);
    MismatchExcludesSuffix(name, ".py", 0);
    MismatchExcludesSuffix(name, ".go", 0);
    MismatchExcludesSuffix(name, ".rs", 0);
    MismatchExcludesSuffix(name, ".java", 0);
    MismatchExcludesSuffix(name, ".md", 0);
  }

  lemma DetectLanguageMarkdown()
    ensures DetectLanguage("README.md") == "markdown"
  {
    var name := "README.md";
    MismatchExcludesSuffix(name, ".ts", 0);
    MismatchExcludesSuffix(name, ".tsx", 0);
    MismatchExcludesSuffix(name, ".js", 0);
    MismatchExcludesSuffix(name, ".jsx", 0);
    MismatchExcludesSuffix(name, ".css", 0);
    MismatchExcludesSuffix(name, ".html", 0);
    MismatchExcludesSuffix(name, ".json", 0);
    MismatchExcludesSuffix(name, ".py", 0);
    MismatchExcludesSuffix(name, ".go", 0);
    MismatchExcludesSuffix(name, ".rs", 0);
    MismatchExcludesSuffix(name, ".java", 0);
    assert EndsWith(name, ".md");
  }

  /** ".tsx" and ".jsx" share a tag with ".ts" and ".js". */
  lemma DetectLanguageJsxTsx()
    ensures DetectLanguage("App.tsx") == "typescript"
    ensures DetectLanguage("index.jsx") == "javascript"
  {
    assert EndsWith("App.tsx", ".tsx");
    MismatchExcludesSuffix("index.jsx", ".ts", 0);
    MismatchExcludesSuffix("index.jsx", ".tsx", 2);
    MismatchExcludesSuffix("index.jsx", ".js", 0);
    assert EndsWith("index.jsx", ".jsx");
  }

  // ---------------------------------------------------------------- tree filter

  predicate IsBlobItem(item: GitTreeItem) { item.kind == Blob }

  predicate IsTextPath(item: GitTreeItem) { !IsBinary(item.path) }

  predicate IsTextBlob(item: GitTreeItem) { item.kind == Blob && !IsBinary(item.path) }

  /** The filter chain applied to a fetched tree: blobs first, then non-binary paths. */
  function TextBlobs(tree: seq<GitTreeItem>): seq<GitTreeItem>
  {
    Filter(Filter(tree, IsBlobItem), IsTextPath)
  }

  /**
   * The filtered tree holds exactly the non-binary blobs of the listing, in listing order (no
   * directory entry survives), and the two-pass chain equals one pass with the combined test.
   */
  lemma TextBlobsSpec(tree: seq<GitTreeItem>)
    ensures TextBlobs(tree) == Filter(tree, IsTextBlob)
    ensures forall x :: x in TextBlobs(tree) <==> x in tree && x.kind == Blob && !IsBinary(x.path)
    ensures IsSubsequence(TextBlobs(tree), tree)
  {
    FilterTwice(tree, IsBlobItem, IsTextPath, IsTextBlob);
    FilterIsSubsequence(tree, IsTextBlob);
  }

  /** Filtering a listing piecewise gives the same as filtering it whole. */
  lemma TextBlobsConcat(a: seq<GitTreeItem>, b: seq<GitTreeItem>)
    ensures TextBlobs(a + b) == TextBlobs(a) + TextBlobs(b)
  {
    TextBlobsSpec(a + b);
    TextBlobsSpec(a);
    TextBlobsSpec(b);
    FilterConcat(a, b, IsTextBlob);
  }

  /** A listing of non-binary blobs passes the filter unchanged. */
  lemma TextBlobsKeepsTextListing(tree: seq<GitTreeItem>)
    requires forall i :: 0 <= i < |tree| ==> IsTextBlob(tree[i])
    ensures TextBlobs(tree) == tree
  {
    TextBlobsSpec(tree);
    FilterKeepsAll(tree, IsTextBlob);
  }
}
