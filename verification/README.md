# Verified model of the code-review, observability-design and WeChat article scripts

This project models, in Dafny, the computational core of a set of helper
scripts and proves properties of that model:

- **Java style checker and memory-leak finder** (`code-review/scripts/check_style.py`,
  `code-review/scripts/find_memory_leaks.py`).
  - Each script has a table of line rules. Every rule is a pattern, an optional exclusion pattern, a severity and a description.
  - `check_file` tries the rules in table order, each against every line of a file. A rule whose regular expression does not compile raises; the `except` ends the scan and the findings gathered so far are returned.
  - `check_complexity` scores each Java method by the lines of its body that hold a decision keyword. It reports methods scoring above 10.
  - `scan_directory` and `main` gather the findings of one file or of a directory.
  - `print_issues` sorts the findings by severity and counts them per severity.
- **Mind-map generator** (`observability-design/scripts/generate_drawio.py`).
  - `create_mindmap_xml` lays out a root node, one node per branch (logging, monitoring, alerting), per module and per item, with an edge into each.
  - `get_git_branch` turns the branch name into a file-name prefix.
  - `main` names the output file and counts the items.
- **WeChat article pipeline** (`wechat-article-generator/scripts/`).
  - `inject_images.py` replaces `《Image n》` placeholders by `<img>` tags.
  - `save_article_html.py` sanitises a file name and adds inline styles to the rendered article.
  - `upload_images.py` reads settings from the environment or `.env` files, computes the public URL of an uploaded image, and merges new image URLs into the stored ones.

Regular expressions are not modelled as a language. The rule matcher is a parameter `Matcher` (pattern, line) → bool that stands for `re.search`. Whether `re` compiles a pattern is a parameter `Compiles` too. Of a pattern's syntax the model computes only its group balance (`Findings.GroupBalance`), which is enough to show that one pattern leaves a group open. The method-signature and keyword tests of `check_complexity` are parameters of type `string -> bool`. Every statement proved about the scanners therefore holds for any regular-expression engine. Three fixed patterns are written out instead, because their meaning is small and exact: the character class `[\\/*?:"<>|]` of `sanitize_filename` is the set `ArticleHtml.Forbidden`; the `\d+` search of `replace_placeholder` is `Inject.FirstNumber`, the first run of ASCII digits; and the `《(.*?)》` placeholder syntax of `inject_images.py` is a scan for the nearest `》` before a line break.

The files:

| file | module | what it holds |
|---|---|---|
| `wrappers.dfy` | `Wrappers` | `Option` |
| `text.dfy` | `Text` | Python's `str.strip`, `str.split`, `str.count`, `str.replace`, `str.startswith` and decimal printing and parsing |
| `findings.dfy` | `Findings` | rules, findings and `check_file` |
| `catalogs.dfy` | `Catalogs` | the two rule tables and properties of particular rules |
| `complexity.dfy` | `Complexity` | `check_complexity` |
| `report.dfy` | `Report` | the severity sort and the per-severity counts of `print_issues` |
| `scan.dfy` | `Scan` | `scan_directory` and the target dispatch of both `main`s |
| `mindmap.dfy` | `Mindmap` | `generate_drawio.py` |
| `article_data.dfy` | `ArticleData` | the `image_urls` record of `article_data.json` |
| `inject.dfy` | `Inject` | `inject_images.py` |
| `article_html.dfy` | `ArticleHtml` | `sanitize_filename`, `add_inline_styles` |
| `upload.dfy` | `Upload` | `get_env_var`, the public URL, the URL merge |

Three consequences of the code as written are proved rather than assumed:

- **The style checker stops at its second rule.** The "String concatenation in log" pattern opens the group `(log...` and never closes it (`Catalogs.LogConcatUnclosed`). For a `re` that rejects such a pattern, `check_file` raises at that rule on the first line of every file. It returns only the "Magic Number" findings (`Catalogs.StyleCheckStopsAtLogConcat`). So the style checker prints only "Magic Number" and "High Cyclomatic Complexity" findings (`Scan.StyleOfFilesAsWritten`). See "## Findings".
- **Two style rules would stay silent even with that pattern fixed.** The "Empty line count" and "Trailing whitespace" rules match only text that contains a line break. Files are split at `\n` before matching, so no line ever contains one. `Catalogs.NewlineRulesSilent` proves that under the corrected catalog, for any matcher under which those patterns need a line break, no finding carries their names.
- **Only bare tags are restyled.** `add_inline_styles` restyles only the bare tags `<h3>`, `<p>` and `<blockquote>`. Tags with attributes and closing tags stay as they are. The three sequential `str.replace` calls act as one left-to-right pass (`ArticleHtml.RestyleIsOnePass`), because no inserted style contains a `<`.

## Model

| member | source | states |
|---|---|---|
| Text.StripIsMiddle | code-review/scripts/check_style.py:152 | `strip()` leaves a contiguous piece of the input that neither begins nor ends with whitespace |
| Text.StripLeftCutsSpaces | code-review/scripts/check_style.py:174 | the left strip removes a prefix made only of whitespace and stops at a non-space character |
| Text.StripRightCutsSpaces | code-review/scripts/check_style.py:174 | the right strip removes a suffix made only of whitespace and stops at a non-space character |
| Text.StripKeepsTrimmed | code-review/scripts/check_style.py:152 | a text that neither begins nor ends with whitespace is left as it is by `strip()` |
| Text.Split | code-review/scripts/check_style.py:134 | `split('\n')` yields at least one piece and no piece holds the separator |
| Text.JoinSplit | code-review/scripts/check_style.py:134 | joining the pieces of `split(sep)` with `sep` gives back the text |
| Text.SplitWithoutSeparator | wechat-article-generator/scripts/upload_images.py:70 | a text without the separator splits into itself alone |
| Text.SplitLength | wechat-article-generator/scripts/upload_images.py:70 | `split(sep)` yields one more piece than there are separators |
| Text.Count | code-review/scripts/check_style.py:187-188 | `count(c)` is at most the length and is zero exactly when `c` does not occur |
| Text.ReplaceChar | wechat-article-generator/scripts/save_article_html.py:9 | `replace(" ", "_")` changes exactly the spaces, position by position |
| Text.ReplaceAll | wechat-article-generator/scripts/save_article_html.py:23-25 | `str.replace` leaves a text without the pattern unchanged |
| Text.NatToString | code-review/scripts/check_style.py:203 | the decimal form of a number is a non-empty run of digits without a leading zero |
| Text.DecimalRoundTrip | wechat-article-generator/scripts/inject_images.py:35 | `int()` of the decimal form of `n` is `n` |
| Findings.RuleHitsSound | code-review/scripts/check_style.py:136-153 | every finding of a rule reports, in increasing line order, a line on which its pattern matches and its exclusion does not, with that rule's fields and the stripped line |
| Findings.RuleHitsComplete | code-review/scripts/check_style.py:140-153 | every line on which a rule fires is reported with its 1-based number |
| Findings.ExclusionWins | code-review/scripts/find_memory_leaks.py:104-110 | a line is reported exactly when the pattern matches and the exclusion is absent, empty or does not match |
| Findings.RuleMajor | code-review/scripts/check_style.py:136-140 | findings come rule by rule: a catalog's findings are its first rules' findings followed by the rest's |
| Findings.CatalogHitsSound | code-review/scripts/check_style.py:136-153 | every finding of a catalog is one of its rules' report of a line on which that rule fires |
| Findings.CatalogHitsComplete | code-review/scripts/find_memory_leaks.py:102-119 | every (rule, line) pair on which the rule fires appears among the file's findings |
| Findings.CheckFile | code-review/scripts/check_style.py:127-157 | the loop over rules and lines returns, for a readable file, the findings of the rules before the first one that raises (`FileHits` of the `\n`-split lines), and nothing when the file cannot be read |
| Findings.FirstRaise | code-review/scripts/check_style.py:136-156 | the rule at which the scan stops is the first whose pattern does not compile, or whose non-empty exclusion does not compile while its pattern matches some line; no rule before it raises, and it is the table's end when none does |
| Findings.FirstRaiseIs | code-review/scripts/check_style.py:136-156 | the stopping rule is determined by which rules raise: an index with no raising rule before it and a raising rule at it is that rule |
| Findings.AllCompileRunsAll | code-review/scripts/find_memory_leaks.py:102-119 | when every pattern and every non-empty exclusion compiles, `check_file` tries every rule on every line |
| Findings.FileHitsPrefix | code-review/scripts/check_style.py:136-156 | what `check_file` returns is a prefix of the whole catalog's findings: the rules it does not reach only add findings after it |
| Findings.FileHitsSound | code-review/scripts/check_style.py:136-156 | every finding `check_file` returns is a rule's report of a line on which that rule fires |
| Findings.FileHitsComplete | code-review/scripts/check_style.py:136-156 | every line on which a rule before the stopping rule fires is reported |
| Findings.SilentRule | code-review/scripts/check_style.py:141 | a rule whose pattern matches no line reports nothing |
| Catalogs.LogConcatUnclosed | code-review/scripts/check_style.py:21 | the "String concatenation in log" pattern opens one more group than it closes; with `)` appended its groups balance |
| Catalogs.StyleCheckStopsAtLogConcat | code-review/scripts/check_style.py:11-26 | as written, for a `re` that rejects an unclosed group, the style `check_file` of any readable file returns exactly its "Magic Number" findings |
| Catalogs.IntendedStyleRunsAll | code-review/scripts/check_style.py:11-125 | with the log pattern closed and every expression compiling, all sixteen style rules are tried on every line |
| Catalogs.AsWrittenOneLine | code-review/scripts/check_style.py:11-26 | as written, a one-line file that the "Magic Number" pattern does not match gets no style finding |
| Catalogs.IntendedOnlyRule | code-review/scripts/check_style.py:136-153 | under the corrected catalog, a one-line file matched only by rule `k` gets that rule's report unless its exclusion matches |
| Catalogs.BroadCatchScenario | code-review/scripts/check_style.py:26-32 | `catch (Exception e) {` gets no finding as written and one HIGH "Broad exception catch" finding under the corrected catalog |
| Catalogs.NewlineRuleSilent | code-review/scripts/check_style.py:134-141 | a rule whose pattern needs a line break never reports a line of a `\n`-split file |
| Catalogs.NewlineRulesSilent | code-review/scripts/check_style.py:103-116 | even under the corrected catalog, no finding is ever named "Empty line count" or "Trailing whitespace" |
| Catalogs.StyleNamesDistinct | code-review/scripts/check_style.py:103-116 | those two rule names belong to no other style rule |
| Catalogs.LeakRulesAlwaysExclude | code-review/scripts/find_memory_leaks.py:12-90 | every leak rule has a non-empty exclusion, so it fires exactly when its pattern matches and its exclusion does not |
| Catalogs.UnclosedInputStreamScenario | code-review/scripts/find_memory_leaks.py:13-19 | when the leak catalog compiles, a `FileInputStream` line gives one CRITICAL "Unclosed InputStream" finding unless the try-with-resources exclusion matches, and none if it does |
| Catalogs.TryWithResourcesScenario | code-review/scripts/find_memory_leaks.py:13-19 | the same `FileInputStream` declaration inside a `try (` header, where the exclusion matches, gives no finding, whether or not the catalog compiles |
| Catalogs.HardcodedPasswordScenario | code-review/scripts/check_style.py:54-60 | as written, a hard-coded password line gets no finding, commented out or not; under the corrected catalog it gets one CRITICAL "Hardcoded password" finding, and the commented-out line none |
| Catalogs.NothingFires | code-review/scripts/check_style.py:136-153 | when no pattern matches any line, the file has no findings |
| Catalogs.OnlyRuleFires | code-review/scripts/check_style.py:136-153 | when exactly one rule's pattern matches a one-line file, the findings are exactly that rule's report of it, if it fires |
| Complexity.Take | code-review/scripts/check_style.py:204 | `s[:n]` is the prefix of `s` of length at most `n`, and all of `s` when it is short enough |
| Complexity.Step | code-review/scripts/check_style.py:176-206 | a score is emitted only when an open method closes on a non-signature line |
| Complexity.Advance | code-review/scripts/check_style.py:173-206 | an open method's start line is among the lines read |
| Complexity.Run | code-review/scripts/check_style.py:168-206 | the same, after any number of lines |
| Complexity.CheckComplexity | code-review/scripts/check_style.py:160-211 | the line loop computes `Run` over the `\n`-split lines, and nothing for an unreadable file |
| Complexity.ReadLine | code-review/scripts/check_style.py:174-206 | one loop iteration performs `Advance` |
| Complexity.StepKeepsOpenMethod | code-review/scripts/check_style.py:185-195 | reading a line keeps the open-method invariant |
| Complexity.TrackerMeaning | code-review/scripts/check_style.py:168-206 | an open method began on a signature line, and `methodStart` is the line on which it opened: no method was open just before it. Its brace count is 1 plus the net braces of its body and has never reached 0. Its score is 1 plus the number of keyword lines. |
| Complexity.OpenedAt | code-review/scripts/check_style.py:178-183 | a method opens only while none is open, so the recorded start is the line on which the open method opened |
| Complexity.ClosingLine | code-review/scripts/check_style.py:178-206 | a method closes exactly when a non-signature line brings its brace count to 0; a finding is added exactly when the score then exceeds 10, and it reports the line on which that method opened |
| Complexity.AdvanceKeepsOrder | code-review/scripts/check_style.py:197-205 | each line keeps the findings on signature lines, in increasing order and before the open method |
| Complexity.ComplexityFindingsOrdered | code-review/scripts/check_style.py:197-205 | every complexity finding is a MEDIUM "High Cyclomatic Complexity" report of a signature line, in strictly increasing line order |
| Complexity.ComplexityFindingsCarryFile | code-review/scripts/check_style.py:200 | every complexity finding names the scanned file |
| Complexity.BalancedMethodScore | code-review/scripts/check_style.py:176-206 | a signature, `k` balanced keyword lines and a closing line score `k + 1`, reported exactly when `k + 1 > 10` |
| Complexity.BodyKeepsMethodOpen | code-review/scripts/check_style.py:185-192 | balanced keyword lines keep the method open with brace count 1, each adding one to the score |
| Complexity.ElevenBranches | code-review/scripts/check_style.py:197-205 | eleven keyword lines give one finding, on line 1, "Method has complexity 12 (recommended: < 10)" |
| Report.RankTable | code-review/scripts/check_style.py:241-242 | CRITICAL < HIGH < MEDIUM < LOW < any other severity, which all rank 4 |
| Report.InsertPermutes | code-review/scripts/check_style.py:242 | inserting a finding adds exactly that finding |
| Report.InsertSorted | code-review/scripts/check_style.py:242 | inserting into a severity-sorted list keeps it sorted |
| Report.InsertOfRank | code-review/scripts/check_style.py:242 | insertion appends the finding after the findings of its own rank, so ties keep their order |
| Report.SortSpecSorted | code-review/scripts/check_style.py:240-242 | the sorted findings are ordered by severity rank |
| Report.SortSpecPermutes | code-review/scripts/check_style.py:240-242 | the sorted findings are a permutation of the input |
| Report.SortSpecStable | code-review/scripts/find_memory_leaks.py:150-152 | the sort is stable: findings of each rank keep their original order |
| Report.InsertSkipsRun | code-review/scripts/check_style.py:242 | inserting before a run of higher-ranked findings leaves that run after the inserted finding |
| Report.InsertAt | code-review/scripts/check_style.py:242 | insertion places the finding after the last finding of equal or lower rank |
| Report.SortIssues | code-review/scripts/check_style.py:240-242 | the in-place sort of the array leaves it equal to the stable sort of its old contents |
| Report.InsertLast | code-review/scripts/check_style.py:242 | one pass inserts element `i` into the sorted prefix and leaves the rest of the array alone |
| Report.ShiftRun | code-review/scripts/check_style.py:242 | the shift moves the run of higher-ranked findings one place right and stops after the last finding of equal or lower rank |
| Report.Severities | code-review/scripts/check_style.py:246-247 | one severity per finding |
| Report.CountBySeverity | code-review/scripts/check_style.py:244-247 | the counting loop computes the tally; a severity is a key exactly when some finding has it |
| Report.TallyCounts | code-review/scripts/find_memory_leaks.py:154-157 | a severity is counted exactly when it occurs among the findings |
| Report.TallySumsToTotal | code-review/scripts/check_style.py:244-256 | over distinct severities that cover the findings, the counts add up to the number of findings |
| Report.InsertKeepsSeverities | code-review/scripts/check_style.py:242 | insertion adds exactly the inserted finding's severity |
| Report.SortKeepsSeverities | code-review/scripts/check_style.py:240-247 | sorting keeps the multiset of severities |
| Report.TallyBySeverities | code-review/scripts/check_style.py:244-247 | the tally depends only on the multiset of severities |
| Report.SortKeepsTally | code-review/scripts/check_style.py:240-247 | counting after the sort gives the same counts as counting before it |
| Scan.CheckStyle | code-review/scripts/check_style.py:280-285 | one file's style findings: what `check_file` returns (the rules up to the first that raises), then its complexity findings |
| Scan.ScanStyle | code-review/scripts/check_style.py:214-231 | the directory loop concatenates the style findings of the Java files in walk order |
| Scan.ScanLeaks | code-review/scripts/find_memory_leaks.py:126-141 | the directory loop concatenates the leak findings of the Java files in walk order |
| Scan.StyleMain | code-review/scripts/check_style.py:269-292 | an invalid target gives no result (exit); a file or a directory gives its findings under the style catalog as written |
| Scan.StyleOfFileAsWritten | code-review/scripts/check_style.py:127-157 | as written, a readable file's style findings are its "Magic Number" findings then its complexity findings; an unreadable file has none |
| Scan.StyleOfFilesAsWritten | code-review/scripts/check_style.py:214-231 | as written, every finding the style checker gathers is named "Magic Number" or "High Cyclomatic Complexity" |
| Scan.LeakMain | code-review/scripts/find_memory_leaks.py:178-198 | the same dispatch for the leak catalog |
| Scan.StyleOfFilesAppend | code-review/scripts/check_style.py:225-229 | the findings of two groups of files are the findings of the first group followed by those of the second |
| Scan.LeakOfFilesAppend | code-review/scripts/find_memory_leaks.py:137-139 | the same for leak findings |
| Scan.LeakFindingsSound | code-review/scripts/find_memory_leaks.py:126-141 | every leak finding is a catalog rule's report of a line of a readable file |
| Scan.StyleFindingsSound | code-review/scripts/check_style.py:214-231 | every style finding is either a rule report or a complexity report on a signature line of a readable file |
| Mindmap.ItemCells | observability-design/scripts/generate_drawio.py:233-269 | two cells per item |
| Mindmap.ModuleCells | observability-design/scripts/generate_drawio.py:193-229 | two cells per module plus two per item |
| Mindmap.ModulesCells | observability-design/scripts/generate_drawio.py:193-273 | the cells of a branch's modules number as counted by `ModulesSize` |
| Mindmap.BranchCells | observability-design/scripts/generate_drawio.py:150-187 | a branch brings its node, its edge and its modules' cells |
| Mindmap.BranchesCells | observability-design/scripts/generate_drawio.py:150-153 | the present branches' cells number as counted by `BranchesSize` |
| Mindmap.AddItems | observability-design/scripts/generate_drawio.py:232-271 | the item loop appends each item's node 200 right of and 60 apart below the module, with its edge from the module, and keeps every non-root node linked to its parent |
| Mindmap.AddModule | observability-design/scripts/generate_drawio.py:194-271 | one module round appends the module node, its edge from the branch and its items |
| Mindmap.AddModules | observability-design/scripts/generate_drawio.py:189-273 | the module loop advances the height by `max(60 * items, 80)` per module and keeps the tree linked |
| Mindmap.AddBranch | observability-design/scripts/generate_drawio.py:155-273 | one branch round appends the branch node, its edge from the root and its modules |
| Mindmap.CreateMindmap | observability-design/scripts/generate_drawio.py:32-275 | the generated cells are the layer cells, the root and the present branches in fixed order, every non-root node immediately followed by the edge from its parent |
| Mindmap.AppendLinked | observability-design/scripts/generate_drawio.py:238-269 | appending a node and the edge from its parent keeps every node linked |
| Mindmap.ItemLayout | observability-design/scripts/generate_drawio.py:233-269 | item `j` is a level-3 node 200 right of its module and `60 * j` below it, 200×40, followed by the edge from the module |
| Mindmap.CellIdsConsecutive | observability-design/scripts/generate_drawio.py:93-120 | cell ids are unique and consecutive: cell `k` has id `k`, beginning with the layers and the root |
| Mindmap.BranchNodeAt | observability-design/scripts/generate_drawio.py:123-187 | a present branch's node comes right after the cells of the present branches before it, in the order logging, monitoring, alerting, followed by its edge from the root |
| Mindmap.BranchCellsInDiagram | observability-design/scripts/generate_drawio.py:150-273 | all of a present branch's cells stand as one block in the diagram, right after the cells of the present branches before it |
| Mindmap.OtherKeysIgnored | observability-design/scripts/generate_drawio.py:150-153 | inputs that agree on the three branch keys give the same diagram |
| Mindmap.ModulesSizeCounts | observability-design/scripts/generate_drawio.py:193-273 | a branch's modules bring two cells per module and two per item |
| Mindmap.CellCount | observability-design/scripts/generate_drawio.py:93-273 | the diagram has 3 cells plus two per branch, module and item of the three keys |
| Mindmap.BranchItemNodes | observability-design/scripts/generate_drawio.py:155-273 | a branch's cells hold exactly one item node per item of its modules |
| Mindmap.DiagramItemNodes | observability-design/scripts/generate_drawio.py:93-273 | the diagram holds one item node per item of the logging, monitoring and alerting keys, and none for other keys |
| Mindmap.ModuleAt | observability-design/scripts/generate_drawio.py:193-229 | module `j`'s node follows the cells of the modules before it, at the height their spans add up to, followed by the edge from the branch |
| Mindmap.ModuleSpacing | observability-design/scripts/generate_drawio.py:271-273 | consecutive modules are at least 80 apart, and all items of a module lie above the next module |
| Mindmap.BranchName | observability-design/scripts/generate_drawio.py:14-29 | a failed `git` call gives "default"; otherwise the stripped output keeps its length and has no `/` or `\` |
| Mindmap.BranchNameKeepsOthers | observability-design/scripts/generate_drawio.py:23-25 | each `/` and `\` becomes `-`; every other character stays in place |
| Mindmap.OutputName | observability-design/scripts/generate_drawio.py:296-301 | the file name is the branch, `-`, then the given name, or `observability-design.drawio` when none is given |
| Mindmap.Summarize | observability-design/scripts/generate_drawio.py:324-326 | an absent key counts 0 items |
| Mindmap.SummaryCountsItems | observability-design/scripts/generate_drawio.py:324-330 | the reported item counts are the item nodes (level-3 vertices) of the diagram: their sum is the diagram's number of item nodes, each present branch's count is the number of item nodes among that branch's own cells, and the total cell count fits them |
| Inject.CloseIndex | wechat-article-generator/scripts/inject_images.py:44 | where the lazy `(.*?)》` stops lies inside the text after `《` |
| Inject.CloseIndexMeaning | wechat-article-generator/scripts/inject_images.py:44 | a placeholder ends at the first `》` when no line break comes before it; otherwise there is no match |
| Inject.CloseAfter | wechat-article-generator/scripts/inject_images.py:44 | a text without `》` or line break, then `》`, closes right after the text |
| Inject.LeadingDigits | wechat-article-generator/scripts/inject_images.py:33 | the digit run is no longer than the text |
| Inject.LeadingDigitsMeaning | wechat-article-generator/scripts/inject_images.py:33 | the `\d+` match taken at a digit is the longest run of digits starting there |
| Inject.FindsPrintedNumber | wechat-article-generator/scripts/inject_images.py:33-35 | in a text whose only digits are a printed number `n`, `\d+` finds exactly that number |
| Inject.DigitsThenStop | wechat-article-generator/scripts/inject_images.py:33 | a digit run followed by a non-digit is matched whole |
| Inject.LeadingDigitsNumber | wechat-article-generator/scripts/inject_images.py:33-35 | what the number search finds is all digits, so `int()` applies |
| Inject.ReplacedIffInRange | wechat-article-generator/scripts/inject_images.py:30-41 | a placeholder is replaced exactly when its number `n` has `1 <= n <= len(content_urls)`, and then by the `<img>` tag of URL `n` |
| Inject.NumberedPlaceholder | wechat-article-generator/scripts/inject_images.py:30-41 | `《Image n》` names index `n - 1` and becomes the tag of URL `n` when there is one |
| Inject.OnePlaceholder | wechat-article-generator/scripts/inject_images.py:44 | a placeholder at the head of the text is replaced and the scan resumes after its `》` |
| Inject.PlainPrefixUnchanged | wechat-article-generator/scripts/inject_images.py:44 | text without `《` is copied unchanged ahead of the rest |
| Inject.NoPlaceholderUnchanged | wechat-article-generator/scripts/inject_images.py:44 | a text without `《` is left as it is |
| Inject.NoUrlsUnchanged | wechat-article-generator/scripts/inject_images.py:36-41 | with no content URLs every text is left as it is |
| Inject.MissingUrlsUnchanged | wechat-article-generator/scripts/inject_images.py:14-16 | without `image_urls` or its `content` the final content is the new content |
| ArticleHtml.Remove | wechat-article-generator/scripts/save_article_html.py:9 | deletes exactly the forbidden characters: none is left, a text without them is kept as it is, and the result is never longer |
| ArticleHtml.RemoveDistributes | wechat-article-generator/scripts/save_article_html.py:9 | deletion works character by character, so it distributes over concatenation |
| ArticleHtml.SanitizedIsClean | wechat-article-generator/scripts/save_article_html.py:9 | a sanitised name has none of the nine forbidden characters (backslash, slash, star, question mark, colon, double quote, angle brackets, bar), no space, and no whitespace at either end |
| ArticleHtml.StripKeepsAbsent | wechat-article-generator/scripts/save_article_html.py:9 | stripping adds no character |
| ArticleHtml.SanitizeIdempotent | wechat-article-generator/scripts/save_article_html.py:9 | sanitising a sanitised name changes nothing |
| ArticleHtml.H3StyleHasNoTag | wechat-article-generator/scripts/save_article_html.py:16 | the `h3` style holds no `<` |
| ArticleHtml.PStyleHasNoTag | wechat-article-generator/scripts/save_article_html.py:17 | the `p` style holds no `<` |
| ArticleHtml.BlockquoteStyleHasNoTag | wechat-article-generator/scripts/save_article_html.py:18 | the `blockquote` style holds no `<` |
| ArticleHtml.StyledOpenShape | wechat-article-generator/scripts/save_article_html.py:23-25 | a styled opening tag starts with `<` and its tag letter and holds no other `<` |
| ArticleHtml.RestyleIsOnePass | wechat-article-generator/scripts/save_article_html.py:23-25 | the three replacements in sequence equal one pass that restyles each bare `<h3>`, `<p>`, `<blockquote>` where it stands and copies everything else |
| ArticleHtml.PassesAreOnePass | wechat-article-generator/scripts/save_article_html.py:23-25 | the same for any styled tags that start with `<` and their own letter and hold no other `<` |
| ArticleHtml.UntaggedBodyOnlyWrapped | wechat-article-generator/scripts/save_article_html.py:23-29 | a body without those bare tags is only wrapped in the styled `div` |
| ArticleHtml.ReplaceSkip | wechat-article-generator/scripts/save_article_html.py:23-25 | text without the pattern's first character passes through a replacement unchanged |
| ArticleHtml.ReplaceKeepsPlainStart | wechat-article-generator/scripts/save_article_html.py:23-25 | a replacement introduces no new run of characters free of the pattern's first character at the start |
| Upload.StripQuotes | wechat-article-generator/scripts/upload_images.py:23 | stripping quotes never lengthens the value |
| Upload.StripQuotesMeaning | wechat-article-generator/scripts/upload_images.py:23 | the result neither begins nor ends with `"`, and a value without `"` is kept |
| Upload.DefinesHasEquals | wechat-article-generator/scripts/upload_images.py:22-23 | a defining line holds an `=`, so its second piece exists |
| Upload.ValueCutAtSecondEquals | wechat-article-generator/scripts/upload_images.py:23 | `NAME=a=b` yields `a` stripped of whitespace and quotes: the value ends at the second `=` |
| Upload.GetEnvVar | wechat-article-generator/scripts/upload_images.py:9-26 | the lookup loop returns a non-empty environment value, else the first definition in the first `.env` that has one, else nothing |
| Upload.EnvironmentWins | wechat-article-generator/scripts/upload_images.py:10-11 | a non-empty environment value wins whatever the files say |
| Upload.FirstDefinitionMeaning | wechat-article-generator/scripts/upload_images.py:21-23 | a file gives nothing exactly when no line defines the name; otherwise the value of its first defining line |
| Upload.FileMeaning | wechat-article-generator/scripts/upload_images.py:17-25 | a `.env` candidate gives a value exactly when it is readable and defines the name |
| Upload.FilesLookupMeaning | wechat-article-generator/scripts/upload_images.py:16-26 | the files give nothing exactly when none defines the name; otherwise the value from the first file that does |
| Upload.PublicUrlChoice | wechat-article-generator/scripts/upload_images.py:69-79 | a repository with exactly one `/` gives the Pages URL of its owner and name; any other gives the jsDelivr URL on the branch, `main` by default |
| Upload.UploadResultMeaning | wechat-article-generator/scripts/upload_images.py:30-86 | an upload gives a URL exactly when token and repository are set, the file exists and the status is 200 or 201, and that URL ends with the remote path |
| Upload.CollectContentUrls | wechat-article-generator/scripts/upload_images.py:107-114 | three slots, slot `i` holding the upload result of `content_<i+1>.png` or `None` when the file is missing |
| Upload.MergeContentUrls | wechat-article-generator/scripts/upload_images.py:122-132 | slot `i` gets the new URL if truthy, else the stored one if truthy, else `None` |
| Upload.RecordUploads | wechat-article-generator/scripts/upload_images.py:106-132 | `image_urls` gets the new cover only when one was obtained, and three merged content slots |

## Left out

- Regular expressions are opaque. Rule patterns, the method-signature pattern and the keyword pattern are parameters. The properties proved hold for every matcher. The concrete matching of each pattern is not modelled.
- Whether `re` compiles a pattern is the parameter `Compiles`. The model reads only the group balance of a pattern (`Findings.GroupBalance`). That reading treats a `]` right after the `[` of a class as closing the class, whereas `re` takes it as a literal; no pattern of either catalog has one.
- The `re.error` raised inside `check_file` is modelled as the end of the scan. The printed error message is left out.
- `\d` in `inject_images.py` is modelled as the ASCII digits `0`–`9`. Python also accepts other Unicode decimal digits, and `int()` converts them.
- `check_style.py` reads each file twice, once in `check_file` and once in `check_complexity`. The model gives both the same content.
- File I/O is left out. A file that cannot be opened or decoded is `None`. A `.env` file whose reading fails part way is the lines read before the failure. The printing of results and errors is left out. So are `sys.argv` and `sys.exit`: a missing argument is not modelled, and an invalid target is `None`.
- The directory walk (`Path.rglob('*.java')`) is left out. A directory is given as its list of Java files in walk order, and the "No Java files found" message is not modelled (the result is the same empty list).
- The severity sort: Python's `list.sort` is Timsort, and the model is an in-place insertion sort. Both are stable sorts on the same key, so their results are equal. Only the algorithm differs.
- The printing loop of `print_issues` (lines per severity and per issue, the 80-character cut of the code) is output only and is not modelled; the counts it prints are `Report.CountBySeverity`.
- `generate_drawio.py`:
  - The XML tree, attribute strings, the style strings other than the colours and stroke widths, the `modified` timestamp and `prettify_xml` are not modelled. The diagram is its sequence of cells.
  - The `git` subprocess is an optional output string.
  - JSON loading from a file or a string is not modelled. The input is given as a map from branch key to modules.
- `upload_images.py`:
  - The HTTP `PUT`, base64 encoding, `time.time()` and `uuid4` are not modelled. The status code and the unique file name are parameters.
  - Cover and content existence checks in `main` before the uploads are not modelled; each content image is given as missing or as its upload result.
- `inject_images.py`, `upload_images.py`:
  - Only the `image_urls.cover` and `image_urls.content` keys are modelled; other keys of `article_data.json` are not.
  - A `content` entry that is JSON `null` is not modelled. `inject_images.py` would fail on it at the first numbered placeholder. In the model, `None` stands for an absent entry.
  - The JSON read and write and the "article_data.json not found" exit are not modelled.
- `save_article_html.py`: `preprocess_markdown`, the Markdown conversion, the output file and its date-based name are not modelled.

## Findings

| source | as written | input that shows it | evidently intended | confidence | as-written member | corrected member |
|---|---|---|---|---|---|---|
| code-review/scripts/check_style.py:21 | the "String concatenation in log" pattern opens `(log\.` and never closes it, so `re.search` raises `re.error` on the first line of every file; the `except` at lines 154-156 catches it and `check_file` returns only the "Magic Number" findings | the one-line file `catch (Exception e) {`, which no style rule reports, although "Broad exception catch" matches it | the first group closed at the end of the pattern, so that all sixteen rules are tried | not executed | Catalogs.StyleCheckStopsAtLogConcat | Catalogs.IntendedStyleRunsAll |
