# resolve_js_modules completion engine, in Dafny

This project models the completion engine of the Sublime Text plugin
`resolve_js_modules` (`main.py`). The plugin completes `alias.prefix` after an
`import * as alias from './module.js'` line. For each cursor, it either lists
the exports of the aliased module that start with the prefix, or, when the
alias is not imported, suggests the imported aliases that start with it.

The model has these parts, one module per file:

- `wrappers.dfy` (`Wrappers`): `Option` and `Result`.
- `errors.dfy` (`Errors`): why fetching a module fails: a file gone from a
  recorded path, a syntax error, or a binding target the walker cannot name.
- `dicts.dfy` (`Dicts`): an insertion-ordered dictionary with the `dict`
  semantics of Python 3.7 and later. Assigning to an existing key keeps its position. `FromPairs`
  folds a sequence of assignments into a dictionary. Both the export maps and
  the alias map are such folds.
- `ast.dfy` (`Ast`): the subset of the esprima syntax tree the walker
  inspects. Every other node is `Other`.
- `signature.dfy` (`Signature`): `formatFunction` as `FormatFunction`. It also
  holds decoders for the label and the snippet template, so the round trips
  can be proved: the label reads back as name, arguments and module, and the
  template reads back as name and arguments, with stops numbered 1..n.
- `walker.dfy` (`Walker`): `getModuleCompletionsFromAst`.
  - `Exports` is the specification: the dictionary built by the assignments
    `Bindings` lists in source order.
  - `WalkExports` is the imperative walk, with its nested loop over
    declarators. It is proved equal to `Exports`.
- `cache.dfy` (`Cache`): `parseFile` and its global `parseFileCache`, as the
  class `ModuleCache`.
  - `records` is the cache map. `parse` is the parser, passed to the
    constructor.
  - A file's state (missing, or present with a modification time and content)
    is an input to each fetch.
  - `Answer` is what one fetch answers from given records. `Fetched` states
    the transition of one fetch: it answers `Answer`, and only a fresh,
    successful derivation replaces the path's record. The invariant `Valid`
    says every record holds exactly what walking its source gives.
- `completions.dfy` (`Completions`): the alias-map loop of `findImports`
  (`FindImports`) and `getCompletions` (`GetCompletions`).
  - `Assemble` is the specification of the answer: the cursors'
    contributions, concatenated in cursor order.
  - `GetCompletions` is proved against the records the request starts
    with. It succeeds iff every cursor's fetch succeeds from those records.
    Each fetched map is what that fetch answers. The request leaves every
    path answered as before, and leaves the records of other paths
    untouched.
- `examples.dfy` (`Examples`): worked instances, such as
  `export function add(a, b = 1)` giving `add(a, b)\tmath.js` and
  `add(${1:a}, ${2:b})`.

### Missing files and unnameable targets

`parseFile` turns a `FileNotFoundError` into an empty map only inside its
`try` (`main.py:64-73`). For a path without a cache record, the `open` at
`main.py:65` is the first access, so a missing file yields `{}`. For a path
that has a record, `os.path.getmtime` at `main.py:59` runs before the `try`,
and a missing file raises `FileNotFoundError` out of the whole request. The
model keeps both: `ParseFile` answers `Ok(Empty())` in the first case, and
`Err(FileNotFound(path))` with the cache as it was in the second.

An exported declarator whose target is not an identifier (destructuring, as in
`export const {a, b} = o`) has no usable `id.name`. The model makes the walk
fail with `UnexpectedShape`, and the request with it. In Python this ends in
an exception or a `None` key, and the editor shows no completions either way.
The same holds for an exported function declaration without an identifier.

One case of this differs in what the cache keeps. Take a destructured target
whose initialiser is an arrow function, as in `export const {a} = (x) => x`.
The Python walk does not fail there. `id.name` is `None`, `formatFunction`
runs (`main.py:50`), and `main.py:68` records the module under a `None` key.
The request fails only later, at `key.startswith` (`main.py:111`). The model
fails in the walk and records nothing. While the file stays as it is, both
fail every request that reaches that module. Once the file is deleted, the
source raises at `main.py:59`, because the path is still recorded, while the
model answers an empty map.

## Model

| member | source | states |
|---|---|---|
| Signature.KeptArgsMembers | main.py:18-25 | a name is among the kept arguments iff some parameter is that identifier or a default-value parameter whose left side is that identifier; no more arguments than parameters |
| Signature.KeptArgsAppend | main.py:20-25 | arguments are kept parameter by parameter, in declaration order: keeping distributes over concatenation of parameter lists |
| Signature.NoKeptArgs | main.py:19-33 | with no identifier or defaulted-identifier parameter (none, or only destructuring/rest), the label is `name()\tmodule` and the template `name()` |
| Signature.LabelRoundTrip | main.py:27 | the label decodes back to exactly the function name, the kept arguments in order, and the module name |
| Signature.UnjoinJoin | main.py:27 | the `, `-joined argument list splits back into the same arguments |
| Signature.ParseNatToString | main.py:29 | the decimal numeral of a tab-stop number parses back to that number |
| Signature.PlaceholdersRoundTrip | main.py:29-30 | the placeholders `${k:arg}` numbered from `first` read back into the arguments, each checked against its consecutive number |
| Signature.TemplateRoundTrip | main.py:29-31 | the template decodes back to the function name and exactly the kept arguments, its stops numbered 1..n in order |
| Signature.SameArity | main.py:27-31 | label and template always carry the same number of arguments |
| Dicts.FromPairsKeys | main.py:36-53 | a dictionary filled by assignments lists each key once, in order of first assignment |
| Dicts.FromPairsLookup | main.py:81-83 | a key is present iff some assignment wrote it, and it holds the value of the last such assignment (a repeated alias keeps its last path) |
| Walker.WalkExports | main.py:35-55 | the statement loop yields exactly `Exports` of the module body: the ordered export map, or failure on an unnameable binding target |
| Walker.WalkStatement | main.py:39-53 | one statement extends the map by exactly its own assignments; it fails iff its exported binding target is not an identifier |
| Walker.WalkDeclarators | main.py:44-53 | the declarator loop extends the map by each declarator's assignment in order; it fails iff some declarator's target is not an identifier |
| Walker.ExportKeys | main.py:38-53 | the walk succeeds iff every exported binding target is an identifier; the keys are exactly the names of exported function declarations and variable declarators, each once, in order of first export |
| Walker.IgnoredStatement | main.py:38-44 | a statement that is not an exported function or variable declaration leaves the export map unchanged |
| Walker.LaterFunctionWins | main.py:40-42 | a later exported function declaration overrides the name's entry with the formatted signature of its parameters |
| Walker.LaterDeclaratorWins | main.py:45-53 | the last declarator of a name decides its entry: the arrow function's formatted signature, otherwise `name\tmodule` inserting `name` |
| Cache.BaseName | main.py:62 | the module name is the path's last component: a suffix of the path free of `/`, preceded by `/` when shorter than the path |
| Cache.FetchedAnswers | main.py:58-69 | a fetch, successful or failed, leaves every path answered as before it: the cache only remembers what a fetch would compute |
| Cache.FetchedServes | main.py:59-73 | after a successful fetch the answer is what the cache serves for the path; no other path's record changes; a path already served is answered from its record with the cache unchanged |
| Cache.ModuleCache.constructor | main.py:57 | the cache starts empty |
| Cache.ModuleCache.Load | main.py:66-67 | parsing and walking a file's content gives exactly what the invariant records for that content, or a syntax error |
| Cache.ModuleCache.Refresh | main.py:64-69 | a freshly read present file is parsed and walked; on success only its path's record is replaced, by the current modification time and the fresh map; the invariant is kept |
| Cache.ModuleCache.ParseFile | main.py:58-73 | same modification time: the stored map, cache unchanged; recorded path but file gone: an error, cache unchanged; missing unrecorded file: the empty map, nothing recorded; otherwise the fresh map, replacing only that path's record; the invariant is kept |
| Cache.FetchTwice | main.py:59-73 | two fetches of an unchanged file agree, whether they succeed or fail; after a successful first fetch the map is served and a present file is a cache hit |
| Completions.FindImports | main.py:81-83 | the alias map is exactly the fold of the import matches in scan order |
| Completions.SuggestAliases | main.py:102-107 | the loop over the imported aliases yields the module suggestion of each alias that starts with the token, in alias order |
| Completions.SuggestionsMembers | main.py:103-105 | the suggestions are exactly `alias.js\tmodule` inserting `alias` for each imported alias starting with the token |
| Completions.SelectMembers | main.py:103-111 | a key is selected iff it is among the keys and starts with the prefix; distinct keys give distinct selected keys |
| Completions.SuggestionsSelect | main.py:103-105 | the i-th suggestion is the module suggestion of the i-th alias starting with the token: one per such alias, in alias order |
| Completions.SuggestionsDistinct | main.py:103-105 | over the distinct keys of the alias map, no suggestion appears twice |
| Completions.SelectExports | main.py:109-112 | the loop over the module's keys yields the entries of the keys starting with the prefix, in map order |
| Completions.MatchingMembers | main.py:110-112 | the listed entries are exactly those of names starting with the prefix |
| Completions.MatchingSelect | main.py:110-112 | the i-th listed entry is the entry of the i-th name starting with the prefix: one per such name, in map order |
| Completions.EmptyPrefixMatchesAll | main.py:110-112 | an empty prefix lists every export, in map order |
| Completions.Contribute | main.py:99-112 | one cursor's share: nothing for no token; the suggestions and no cache access for an unknown alias; for a known alias exactly one `parseFile` transition of its path (`Fetched` against the file's current derivation), failing with that fetch's error or listing the selected exports of the fetched map |
| Completions.AssembleAppend | main.py:90-112 | the answer for a run of cursors is the answer for its first part followed by the answer for the rest |
| Completions.FetchedPathsMembers | main.py:109 | the paths a request may touch are exactly the paths of the cursors' known aliases |
| Completions.GetCompletions | main.py:87-114 | the request succeeds iff every cursor's fetch succeeds from the starting records, and a failure carries the error of the first failing cursor, at index `|fetched|`; on success each fetched map is what its fetch answers from the starting records (the record at an unchanged modification time, the file's fresh derivation otherwise), the answer is the contributions in cursor order, and each map is served afterwards; on failure the maps of the cursors before the failing one are what their fetches answer and stay served, so the records their fetches made are kept, and every record outside those cursors' paths (the failing cursor's and later cursors' included) is as it was; every path is answered afterwards as at the start; records outside the known aliases' paths are unchanged |
| Examples.AddExample | main.py:17-33 | `add(a, b = 1)` in `math.js` gives `add(a, b)\tmath.js` and `add(${1:a}, ${2:b})` |
| Examples.DestructuredExample | main.py:19-25 | a destructured parameter is dropped: `f()\tm.js` and `f()` |
| Examples.PiExample | main.py:52-53 | `export const PI = 3.14` gives the single entry `PI\tm.js` inserting `PI` |
| Examples.PrefixExample | main.py:110-112 | exports `foo`, `foobar`, `bar` and prefix `foo` give the entries of `foo` and `foobar`, in that order |
| Examples.FallbackExample | main.py:102-105 | `imp.` with only `import` imported suggests `import.js\tmodule` |

## Left out

- The Sublime Text API: `view.substr`, `view.line`, `view.file_name`, `scope_name`, and the `EventListener` class with its catch-all `try/except` (main.py:116-127). A failed request is an `Err` result here, where the plugin would show no completions.
- The esprima parser is foreign code. It is the constructor parameter `parse`, an arbitrary function from content to an optional syntax tree; `None` stands for a syntax error.
- File I/O and `os.path.getmtime`, `abspath` and `join` are inputs. A fetch receives the file's state, `Missing` or `Present(mtime, content)`. The import matches already carry resolved paths. The request receives a map from path to file state. Unlisted paths are missing.
- Cache.ModuleCache.ParseFile: reads the file's state once per fetch. The source reads the modification time a second time after the read (main.py:68). A file that changes between the two reads is not modelled.
- `log` (main.py:11-15) is a diagnostic file write and is not modelled.
- The regular expressions for import lines and cursor tokens (main.py:76, 82, 95) are not modelled. Their matches are inputs: the (alias, path) pairs in scan order, and per cursor either no token or `Token(alias, prefix)`. The 500-character look-ahead for imports is part of producing those inputs.
- Modification times are unbounded integers. The source only compares them for equality.
- A `null` parameter list is the empty sequence. The source treats both alike (main.py:19).
- Cache.BaseName: is the POSIX `basename`, splitting on `/` only. Under Windows, `os.path` is `ntpath`, which also splits on `\` and after a drive colon, so the module name in a label can differ from the model's.
- Iteration order: `Dict` keeps insertion order, as Python dictionaries do from Python 3.7. The Sublime Text 3 plugin host runs Python 3.3, whose dictionaries iterate in hash order. Under that host, the order statements (exports in map order, suggestions in alias order) do not describe the plugin's order. Only the sets of listed entries still match.
- Unreadable files: `FileState` has no present-but-unreadable case. A `PermissionError`, `IsADirectoryError` or `UnicodeDecodeError` from the `open` and `read` at main.py:65-66 is not a `FileNotFoundError`, so it escapes the request. The model has no such state and never fails that way.
- Walker.WalkExports: fails on a destructured declarator with an arrow initialiser, where the source records the module under a `None` key and fails only when listing it (main.py:50, 68, 111). The two differ only after that file is deleted: the source then raises, and the model answers an empty map.
- Syntax-tree nodes outside the listed variants are one `Other` variant. Their content never reaches the output.
