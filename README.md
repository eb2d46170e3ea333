# branchcraft's conversation engine, in Dafny

branchcraft is a command-line tool that turns a feature description into a new git branch. It
asks a chat-completion service which repository files matter and sends it those files. It then
parses the reply into `{ filePath, fileContent }` suggestions and writes them to disk. This
project models the tool's own logic and proves properties of that model:

- **Transcript** (`transcript.dfy`): `trimConversationWithinTokenLimit` of `src/parsers.ts`.
  - An imperative method with its two loops: the token sum, and the backward walk that
    prepends to the result.
  - It is proved equal to the specification function `Trimmed`.
  - Lemmas state what the walk does and does not guarantee.
- **Parsers** (`parsers.ts`'s extractors, in `parsers.dfy`):
  - the comma-list split;
  - the lazy capture between the first pair of three-backquote fences;
  - the guarded `JSON.parse`;
  - the fence-or-not dispatch of `parseCodeSuggestions`.
- **Cli** (`cli.dfy`), the driver of `src/cli.ts`:
  - its own greedy `{…}` / `[…]` span extractor and its `parseCodeSuggestions`;
  - `chatGptRequest`, as a `Chat` class whose `history` is appended in place, plus the
    normalisation of the reply;
  - `generateBranchCode`, as a method built from `Chat` requests and a `for` loop over the
    requested files. It is proved to produce the dialogue `Dialogue(Preamble(..),
    BranchPrompts(..), reply)`.
  - the branch-name slug;
  - `getApiKey` / `saveApiKey` over the single-line key file;
  - the `.js`/`.ts` filter of `getRepoFiles`.
- **Fs** (`fs.dfy`): `applyCodeSuggestions`, as a method of a `FileSystem` class. The class
  holds a path→content map and a set of directories; the loop is proved against the functions
  `Applied`, `Created` and `Skipped`.
- **Config** (`config.dfy`): the `KEY=value` file of `src/config.ts`.
  - the first-matching-line lookup;
  - the prepend-on-save format, with its round trip;
  - the 2048/4096 token-limit rule;
  - `getConfigs`, as a method of a `ConfigFile` class whose content is rewritten by the saves.
- **Git** (`git.dfy`): the split-and-suffix filter of `getRepoFiles`, with the endings as a
  parameter.
- **Shared theories** (`text.dfy`, `seqs.dfy`, `wrappers.dfy`): the JavaScript string
  operations the code uses (`trim`, `split`, `join`, `includes`, `startsWith`, `endsWith`,
  `replace` with a string pattern, `toLowerCase`) and `Array.prototype.filter`, written out with
  their properties and with a subsequence theory. Two searches stand in for regular expressions
  and for `path.dirname`:
  - `Text.IndexFrom` is the forward search behind `includes` and behind the fence regular
    expression of `src/parsers.ts`;
  - `Text.LastIndexOf` finds the closer of the greedy regular expression of `src/cli.ts` and the
    last '/' for `path.dirname`.

The outside world is passed in as parameters:

| parameter | stands for |
|---|---|
| `reply: seq<Message> -> string` | the completion service, as a function of the history it is sent |
| `parse: string -> Option<JsonValue>` | `JSON.parse`; `None` means it threw |
| `cost: string -> nat` | `calculateTokens` |
| `read: string -> string` | the contents read for each repository file |
| `toNumber: string -> Option<int>` | `Number`; `None` is `NaN` |
| `endings` | `fileEndings` |

Answers typed at the terminal are string parameters too.

The repository contains two copies of some code:

- `src/cli.ts` has its own `extractRequestedFiles` (lines 154-158), identical to the one in
  `src/parsers.ts`; the model uses `Parsers.ExtractRequestedFiles` for both.
- `src/cli.ts` has its own `applyCodeSuggestions` (lines 230-246), identical to the one in
  `src/fs.ts`; `Fs.FileSystem.ApplyCodeSuggestions` models both.
- `src/cli.ts` has its own `extractJSONString` and `parseCodeSuggestions`, and these differ from
  the `src/parsers.ts` ones: they use a greedy bracket span, not a fence capture. They are
  modelled separately (`Cli.GreedySpan`, `Cli.ParseReplySuggestions`).

The trimmer is not called from `chatGptRequest`, so the dialogue model sends the whole history.

One might expect the trimmer to keep the conversation within the token budget; the code does not
guarantee that, and the model follows the code:

- the first user message is put last and can occur twice;
- the counter can be lowered by the cost of a message that was not kept;
- without a user message, the counter is not reset.

The lemmas `AnchorDuplicated`, `OverBudgetResult` and `CounterNotReset` exhibit these.

## Model

| member | source | states |
|---|---|---|
| Transcript.FirstUserIndex | src/parsers.ts:63 | the index of the first message with the user role; none exactly when no message has that role |
| Transcript.SumTokens | src/parsers.ts:50-55 | the first loop's counter ends at the sum of the costs of all messages |
| Transcript.WalkBackLoop | src/parsers.ts:70-85 | the backward loop (keep while counter + cost fits the limit, else lower the counter when that fits) computes the specification walk `WalkBack` |
| Transcript.TrimConversationWithinTokenLimit | src/parsers.ts:49-88 | result equals `Trimmed`; a conversation whose total cost is within the limit comes back unchanged |
| Transcript.WalkKeepsOrder | src/parsers.ts:69-77 | the walk only prepends: the initial kept list stays at the end, and what is placed before it is a subsequence of the visited messages in their original order |
| Transcript.WalkCounter | src/parsers.ts:74-83 | after the walk, the counter is within the limit unless no step changed anything (kept list and counter unchanged); a walk started within the limit ends within it |
| Transcript.TrimmedAnchorsFirstUser | src/parsers.ts:63-77 | over the limit with a user message present: the result is non-empty, its last element is the first user message, the rest is a subsequence of the conversation, and its length is at most that of the conversation plus one |
| Transcript.TrimmedWithoutUser | src/parsers.ts:64-77 | over the limit with no user message: the result is a subsequence of the conversation |
| Transcript.AnchorDuplicated | src/parsers.ts:65-82 | a concrete conversation whose result holds the first user message twice, because the counter was lowered by a reply that was not kept |
| Transcript.OverBudgetResult | src/parsers.ts:69-76 | a concrete result whose summed cost (8) exceeds the limit (5) |
| Transcript.CounterNotReset | src/parsers.ts:64-66 | without a user message the counter keeps the full total, so an affordable message is still dropped |
| Parsers.SafelyParse | src/parsers.ts:18-28 | the parsed value when the parse succeeds with an array or object; null exactly when the parse throws or gives anything else |
| Parsers.ExtractFencedString | src/parsers.ts:39-47 | null exactly when no two fences lie at least three characters apart; otherwise the text between the first fence and the next fence starting at least three characters later, holding no fence itself |
| Parsers.ParseCodeSuggestions | src/parsers.ts:3-37 | text without a fence is parsed whole; with a fence, a missing or empty capture gives null without parsing, otherwise the capture is parsed; the result is null or a truthy object |
| Parsers.FencedOpening | src/parsers.ts:41-42 | in prose-fence-payload-fence-rest with no backquote in the prose, the first fence is the one after the prose |
| Parsers.FencedClosing | src/parsers.ts:41-42 | the closing fence found is the one right after a payload that holds no fence and does not end with a backquote |
| Parsers.FencedRoundTrip | src/parsers.ts:8-31 | a payload written inside one fence pair, after prose without backquotes, is exactly what gets parsed |
| Parsers.ExtractRequestedFiles | src/parsers.ts:90-94 | one entry per comma-separated segment (commas + 1), entry i is segment i trimmed, and no entry has a comma or surrounding whitespace |
| Parsers.RequestedFilesRoundTrip | src/parsers.ts:90-94 | entries joined with commas come back as those entries, trimmed, in order |
| Text.Split | src/parsers.ts:91 | `split`: one piece more than separators, no piece holds the separator, and joining the pieces gives the text back |
| Text.SplitJoin | src/parsers.ts:91 | splitting a join of separator-free pieces gives the pieces back |
| Text.Trim | src/cli.ts:139 | `trim`: the result neither starts nor ends with whitespace and is no longer than the input |
| Text.TrimInfix | src/cli.ts:139 | the trimmed text is a slice of the input with only whitespace before and after it |
| Text.TrimKeepsPrefix | src/config.ts:13 | a first line without whitespace at its ends survives trimming of the whole content |
| Text.IndexFrom | src/parsers.ts:8 | the search behind `includes` and the fence match: the first occurrence at or after the start position; none exactly when there is no occurrence there |
| Text.ReplaceFirst | src/config.ts:15 | `replace` with a string pattern: only the first occurrence is replaced; no occurrence leaves the text unchanged |
| Text.LastIndexOf | src/cli.ts:327 | the last position holding the character; none exactly when it does not occur |
| Text.Lower | src/cli.ts:195 | `toLowerCase`, character by character with the same length; whitespace stays whitespace and no upper-case ASCII letter remains |
| Seqs.Filter | src/git.ts:16 | `filter`: every kept element satisfies the test, every element that does is kept, nothing new appears, and the order of the input is kept |
| Seqs.FilterMultiplicity | src/cli.ts:81 | filtering keeps every occurrence of an accepted element and none of a rejected one |
| Cli.FirstOpen | src/cli.ts:327 | the leftmost position at or after a start where '{' has a later '}' or '[' a later ']'; none exactly when there is no such position |
| Cli.GreedySpan | src/cli.ts:326-331 | null exactly when no position opens a span; otherwise the text from the leftmost opening position to the last occurrence of its closer |
| Cli.GreedyRoundTrip | src/cli.ts:326-331 | a bracketed payload after prose without '{' or '[', followed by text without its closer, is extracted exactly |
| Cli.GreedySpansBoth | src/cli.ts:327 | the greedy span runs across two separate arrays: "x [1] y [2] z" gives "[1] y [2]" |
| Cli.ParseReplySuggestions | src/cli.ts:288-324 | no span gives null; a span that parses to an object makes the suggestion loop throw; a span that parses to an array returns that array; anything else gives null |
| Cli.ReplySuggestionsRoundTrip | src/cli.ts:288-331 | a JSON array written after prose without brackets is returned as parsed |
| Cli.BackslashPassIsIdentity | src/cli.ts:152 | replacing each backslash by a backslash changes nothing |
| Cli.StripQuotes | src/cli.ts:152 | a '"' at the start is removed when there is one, and independently a '"' at the end (a lone '"' only once); nothing else changes |
| Cli.StripLeadingQuote | src/cli.ts:152 | a text with only a leading quote loses just that quote |
| Cli.StripTrailingQuote | src/cli.ts:152 | a text with only a trailing quote loses just that quote |
| Cli.StripQuotesWrapped | src/cli.ts:152 | a quoted text loses exactly its outer quotes |
| Cli.StripQuotesOnce | src/cli.ts:152 | doubled quotes lose only one quote at each end |
| Cli.Normalize | src/cli.ts:152 | the returned text is the quote-stripped reply |
| Cli.CollapseSpaces | src/cli.ts:195 | replacing whitespace runs leaves no whitespace, never lengthens the text, and keeps a non-space first character (a leading run becomes '-') |
| Cli.CollapseSpacesNoSpace | src/cli.ts:195 | text without whitespace is unchanged |
| Cli.CollapseSpacesRun | src/cli.ts:195 | a word, a whitespace run and the rest becomes the word, one '-', and the rest collapsed |
| Cli.SuggestedBranchName | src/cli.ts:195 | "feature/" followed by the collapsed text lowered character by character, with no whitespace anywhere |
| Cli.SavedKeyRoundTrip | src/cli.ts:253-270 | a key without trailing whitespace, saved as "OPENAI_KEY=" + key, is read back as that key |
| Cli.KeyFile.SaveApiKey | src/cli.ts:269-272 | the key file becomes "OPENAI_KEY=" + key, whatever it held before |
| Cli.KeyFile.GetApiKey | src/cli.ts:248-267 | the trimmed file content, or the typed answer when the file cannot be read; an empty one is replaced by a second answer; every answer is saved; the first "OPENAI_KEY=" is removed from the result |
| Cli.CliRepoFiles | src/cli.ts:28-31 | the listed lines ending in ".js" or ".ts", each such line kept, in listing order |
| Cli.Exchange | src/cli.ts:124-145 | one request appends exactly two messages, the prompt and then the trimmed reply to the history including that prompt; earlier entries are untouched |
| Cli.DialogueLength | src/cli.ts:75-117 | a dialogue of n requests adds 2n messages and keeps the starting history |
| Cli.DialogueAt | src/cli.ts:126-145 | the k-th request leaves its prompt at position 2k and the reply to the history up to it at 2k+1 |
| Cli.DialogueKeepsStart | src/cli.ts:57-73 | entries of the starting history are never changed by later requests |
| Cli.Lookup | src/cli.ts:82 | `find` by path: the content of the first record with that path; none exactly when no record has it |
| Cli.SnapshotLookup | src/cli.ts:40-45 | in the snapshot of the repository files, a file's content is the content read for it, or none for a name not in the repository |
| Cli.WithoutCli | src/cli.ts:81 | the requested files without "src/cli.ts": every other requested file remains, in request order |
| Cli.WithoutCliKeepsRepeats | src/cli.ts:81 | a requested file other than "src/cli.ts" is sent as many times as it was requested |
| Cli.Chat.constructor | src/cli.ts:57 | a chat starts with an empty history |
| Cli.Chat.Push | src/cli.ts:126-129 | `push` appends one message |
| Cli.Chat.Request | src/cli.ts:124-153 | the history becomes `Exchange` of the old one (prompt, then trimmed reply), and the returned text is the stored reply with its quotes stripped |
| Cli.OpenChat | src/cli.ts:57-73 | the history holds the system message, then the special-instructions message when there are any |
| Cli.BranchPromptsAt | src/cli.ts:49-117 | the prompts are the file request, the announcement, one transmission per file to send in order, and the suggestions request: 3 + k prompts |
| Cli.BranchDialogueHead | src/cli.ts:61-73 | the history starts with the system message; a special-instructions user message follows if and only if the instructions are non-empty |
| Cli.BranchDialogueRequests | src/cli.ts:75-117 | the dialogue holds 2(3 + k) messages after the preamble, with the file request first and the suggestions request last |
| Cli.BranchPromptFileRead | src/cli.ts:81-89 | the k-th transmission carries the content read for that file, or "undefined" for a name not in the repository |
| Cli.BranchDialogueFiles | src/cli.ts:81-92 | the k-th transmission is sent as the user message at position 4 + 2k after the preamble |
| Cli.BranchHistory | src/cli.ts:75-117 | the two opening requests, the transmissions and the last request together make one dialogue |
| Cli.SendFiles | src/cli.ts:81-93 | the loop sends one transmission per file to send, in order, each as a request |
| Cli.GenerateBranchCode | src/cli.ts:33-122 | the history is the dialogue of the preamble and the branch prompts; the files sent are those named in the first reply, minus "src/cli.ts"; the result parses the last reply |
| Fs.Dirname | src/fs.ts:10 | the text before the last '/', or "." without one |
| Fs.Ancestors | src/fs.ts:10-11 | a recursive mkdir creates exactly the directory and every prefix of it that ends just before a '/' |
| Fs.AncestorsClosed | src/fs.ts:11 | the ancestors of an ancestor are ancestors too |
| Fs.CreatedCovers | src/fs.ts:8-11 | each suggestion with content has its directory and all its ancestors created |
| Fs.CreatedCoversAll | src/fs.ts:8-11 | the created set covers the directory chain of every suggestion with content |
| Fs.CreatedOnlyWritten | src/fs.ts:8-11 | every created directory lies in the chain of some suggestion with content (`mkdir` runs only under `if (fileContent)`) |
| Fs.CreatedExactly | src/fs.ts:8-11 | a directory is created if and only if it lies in the chain of some suggestion with content |
| Fs.CreatedAppend | src/fs.ts:5 | the directories created for a + b are those created for a together with those created for b |
| Fs.AppliedAt | src/fs.ts:5-18 | a path holds the content of its last suggestion with content; a path without one keeps what it had |
| Fs.AppliedAppend | src/fs.ts:5 | applying a + b is applying a, then b |
| Fs.SkippedHasNoEffect | src/fs.ts:8-17 | removing a suggestion without content from the batch changes neither the final file contents nor the created directories |
| Fs.SingleSuggestionExample | src/fs.ts:10-14 | a suggestion for "a/b.txt" writes that file and creates directory "a" |
| Fs.FileSystem.constructor | src/fs.ts:3 | the file system starts with the given files and directories |
| Fs.FileSystem.Mkdir | src/fs.ts:11 | the directory and all its ancestors exist afterwards; files are untouched (so repeating it changes nothing) |
| Fs.FileSystem.WriteFile | src/fs.ts:14 | requires the path's directory and its ancestors to exist already (Node's `writeFile` fails otherwise); the path's content is replaced whole; nothing else changes |
| Fs.FileSystem.WriteSuggestion | src/fs.ts:8-14 | a suggestion with content: its directory chain is added to the directories, then the file gets that content (the `mkdir` comes first, as `WriteFile` requires) |
| Fs.FileSystem.ApplyCodeSuggestions | src/fs.ts:3-19 | files become `Applied`, directories gain `Created`, the skipped paths are reported in order, and every written path's directories exist; each write comes after the `mkdir` that creates its directory, as required by `WriteFile` |
| Config.FindLine | src/config.ts:15 | the index of the first line starting with the key; none exactly when no line does |
| Config.FindValue | src/config.ts:15 | the first line with the key, without the key; undefined exactly when no line has it |
| Config.FallbackTokenLimit | src/config.ts:43 | 4096 exactly for the answer "yes", 2048 otherwise |
| Config.ResolveTokenLimit | src/config.ts:25-44 | a stored 2048 or 4096 is kept, anything else falls back; the result is always 2048 or 4096 |
| Config.Decimal | src/config.ts:59 | the decimal rendering of the limit: non-empty digits without a leading zero whose value (`DigitsValue`) is the limit |
| Config.DecimalTiers | src/config.ts:59 | the two tiers are written as "2048" and "4096" |
| Config.PrependedLookup | src/config.ts:15-59 | a value saved by prepending is found again whatever older lines remain, if it has no newline and no trailing whitespace |
| Config.ApiKeyRoundTrip | src/config.ts:15-53 | `saveApiKey` then the key lookup gives the key back |
| Config.TokenLimitRoundTrip | src/config.ts:25-59 | `saveTokenLimit` then the limit lookup gives the limit back, when `Number` reads a decimal as itself |
| Config.ConfigFile.SaveApiKey | src/config.ts:51-55 | the file becomes "OPENAI_KEY=" + key + newline + the old content (empty when unreadable) |
| Config.ConfigFile.SaveTokenLimit | src/config.ts:57-61 | the file becomes "TOKEN_LIMIT=" + limit + newline + the old content (empty when unreadable) |
| Config.ConfigFile.ReadApiKey | src/config.ts:12-20 | a readable file gives its key line's value and is left alone; an unreadable one gives the typed key, which is saved |
| Config.ConfigFile.ReadTokenLimit | src/config.ts:22-45 | a stored supported limit is returned and the file is left alone; otherwise the fallback is returned and saved |
| Config.ConfigFile.GetConfigs | src/config.ts:7-49 | the key as above, then the limit read from the file as the key step left it; the limit is always 2048 or 4096 |
| Git.RepoFiles | src/git.ts:14-17 | every returned path has one of the endings, a listed line is returned if and only if it has one, order is kept, and there are at most as many results as lines |
| Git.RepoFilesAreLines | src/git.ts:16 | every returned path is a whole line of the listing, without a newline |
| Git.EmptyLineDropped | src/git.ts:16 | the empty line (such as the one after a final newline) is returned only when "" is among the endings |

## Left out

- The completion service (`createChatCompletion`, src/cli.ts:131-137) is the function
  parameter `reply`. The model name is not modelled. The API key is passed along but has no
  effect in the model, although in the source it decides whether the call succeeds.
- `Cli.Chat.Request`: the completion call is assumed to succeed and to return text. A rejected
  call, or a response without `choices[0].message.content`, throws in the source after the
  prompt has been pushed onto the history and aborts `generateBranchCode`; the model does not
  capture that failure path.
- The history log written to `log.createthisbranch.latest.txt` (src/cli.ts:147-149) is not
  modelled: it is output only.
- `JSON.parse` is the parameter `parse`, and the mapping of parsed JSON to `Suggestion` values
  is not modelled. The applier takes a sequence of suggestions; iterating a non-array, which
  throws in the source, is seen only as `Threw` in `Cli.ParseReplySuggestions`.
- `calculateTokens` (tokens.js) and `fileEndings` (consts.js) are not part of this model. They
  are the parameters `cost` and `endings`.
- Interactive input (`readline`, `inquirer`) is not modelled; the answers are string
  parameters. Each stands for the value the prompt resolves to. For `Config.FallbackTokenLimit`
  that is inquirer's resolved value: an empty reply arrives as the prompt's default `'yes'`
  (src/config.ts:33-41), so it gives 4096.
- `main`, console output and `process.exit` are not modelled, with one exception: the
  `console.error` lines that `applyCodeSuggestions` prints for suggestions without content
  (src/fs.ts:16) are the `skipped` result of `Fs.FileSystem.ApplyCodeSuggestions`, one path per
  line, in order (the source function itself returns nothing). Only the pieces of `main` listed
  above (the slug, the key, the applier) are.
- `isGitRepo`, `checkOutBranch` and the `git ls-files` call are foreign; the listing is a
  parameter.
- File reads in `generateBranchCode` run concurrently through `Promise.all`. The model reads
  them once, in order, as one snapshot, and assumes the reads succeed.
- Failing file writes and the directory-creation errors of `mkdir` are not modelled.
- The prompt texts are abbreviated to bracketed labels. The model keeps the interpolated values
  (feature, file list, file names and contents, languages) and their order.
- Whitespace is ASCII only (space, tab, newline, carriage return, vertical tab, form feed).
  JavaScript's `trim` and `\s` also strip Unicode spaces.
- `Text.Lower`: lowers only ASCII letters, because `toLowerCase`'s Unicode tables are not
  modelled.
- `Number` is the parameter `toNumber`.
- `Fs.Dirname`: follows the last '/' rule and does not model Node's handling of trailing
  slashes or of a path directly under the root ("/a" gives "" here, "/" in Node).
- `Transcript.TrimConversationWithinTokenLimit`: no token-budget guarantee is stated, because
  the code does not keep one. Its contract ties it to `Trimmed`, and the lemmas above state
  what does hold.
- `Text.Trim`: its own contract states only that the result is trimmed and not longer. That it
  is the middle slice with whitespace around it is `Text.TrimInfix`.
