# Tyr policy engine in Dafny

Tyr is the validator that decides whether a change to a governed
repository stays inside its intent. Given the active intent folder, it:

- reads three YAML configuration files:
  - `.id-sdlc/governance-config.yml` (the governance level);
  - `.id-sdlc/zones.yml` (folder zones, file overrides, the zone for new folders);
  - `.id-sdlc/red_operations.yml` (operations that touch red paths);
- reads the intent's `intent.md`, `metadata.json`, an optional `development-plan.md` and
  the change manifest;
- collects the changed files from git;
- judges every change.

The checks are:

- the plan's allowed and forbidden globs;
- the zone each path falls in, with files in brand-new folders quarantined
  into the new-folder zone;
- touches of yellow-auto zones;
- red operations the change performs but did not declare;
- from level 3, the manifest against the diff, the SHAs and the new folders.

The report's exit code is chosen by a fixed precedence over the error code
prefixes. A validator exception is routed to an exit code by the words in
its message.

This project models the policy core of `tools/tyr/tyr.py`: everything above except the
I/O, which becomes parameters. It has one module per
part of the engine:

| Module | What it models |
|---|---|
| `Strs`, `Values`, `Ordering` | The Python primitives the engine relies on: `str.strip`, `split`, `find`, `lower`, `int()`, `str()`, dictionaries in insertion order, `sorted` and `set` |
| `Yaml` | The engine's own YAML subset reader: comments, line preparation, scalars and the block parser as functions |
| `YamlReader` | The same block parser as the source runs it: one cursor shared by nested parse calls |
| `YamlDoc` | The block documents the reader reads back, and the proof that their lines parse back to them |
| `YamlText` | The same round trip from whole document text through `_load_simple_yaml` |
| `YamlErrors` | Where the reader fails: every error points at a line showing its fault |
| `Glob` | Glob-to-regex translation and matching |
| `RepoPaths` | Path normalisation and `os.path.dirname` |
| `Diff` | The `git diff --name-status -z` parser, the union used in the coding stage, and the report-file filter |
| `Zones` | Zone lookup, classified prefixes and new-directory detection |
| `Plan` | `development-plan.md` scopes and the allow-list fallback |
| `RedOps` | Red-operation detection and the declaration check |
| `Manifest` | Manifest reconciliation |
| `Verdict` | The exit code and the governance level |
| `Failures` | Exception messages and their exit codes |
| `Validate` | The whole of `validate()` |

Where the engine works step by step, the model is a method with loop
invariants, proved equal to a specification function. That covers the
comment stripper, the line preparation, the YAML reader (a class whose
cursor field the parse methods advance, in `YamlReader`), the glob compiler, the diff parser,
the zone scan, the directory cache, the plan reader, red-op detection, the
manifest loop, the per-file loop and `validate` itself. The properties are
then proved about those functions.

Everything the engine takes from outside is a parameter of the model:

- file contents, as `Option<string>`, `None` when the file is missing;
- git output, as strings;
- the manifest file, as missing, invalid JSON or a parsed value;
- whether a directory existed at the base commit, as a predicate;
- membership in a glob bracket class, as a predicate.

Where the code and the prose description of the validator disagree, the
model follows the code:

- **No deny-wins rule.** A path can be both outside the allowed list and
  inside the forbidden list; both findings are reported, independently.
- **Empty allow list.** An empty allowed list falls back to the intent folder
  glob and the `current-intent.json` file (`Plan.FallbackAllowsIntentFolder`).
- **Bare expected zones.** `expected_zones:` written without brackets is
  iterated character by character (`Plan.BareZonesAreCharacters`).
- **Normalisation.** Path normalisation is not idempotent
  (`RepoPaths.NormalizeNotIdempotent`).
- **Base SHA.** `MANIFEST_BASE_SHA_MISMATCH` can never be reported, because
  the base SHA is taken from the manifest whenever the manifest holds a
  string there (`Manifest.BaseShaNeverMismatches`).
- **Renames.** A rename is split at its first `" -> "`.
- **Manifest values.** A JSON `null` manifest counts as missing.
- **Exceptions.** Exception exit codes depend on the words in the message,
  not on the kind of failure.

## Model

| member | source | states |
|---|---|---|
| Strs.LStrip | tools/tyr/tyr.py:135 | `lstrip()` is no longer than its input and does not start with whitespace |
| Strs.LStripDrops | tools/tyr/tyr.py:135 | `lstrip()` keeps a suffix of its input, and everything it drops is whitespace |
| Strs.RStrip | tools/tyr/tyr.py:135 | `rstrip()` is no longer than its input and does not end with whitespace |
| Strs.RStripDrops | tools/tyr/tyr.py:135 | `rstrip()` keeps a prefix of its input, and everything it drops is whitespace |
| Strs.Strip | tools/tyr/tyr.py:135 | `strip()` is no longer than its input, neither starts nor ends with whitespace, and leaves text without outer whitespace unchanged |
| Strs.StripInfix | tools/tyr/tyr.py:135 | `strip()` keeps the infix that starts after the leading whitespace, and only whitespace lies on either side of it |
| Strs.StripExactly | tools/tyr/tyr.py:135 | whitespace, then text without outer whitespace, then whitespace, strips to exactly that text |
| Strs.LStripChar | tools/tyr/tyr.py:183 | `lstrip(" ")` is no longer than its input and does not start with that character |
| Strs.LStripCharDrops | tools/tyr/tyr.py:183 | `lstrip(" ")` keeps a suffix and drops only copies of that character |
| Strs.RStripChar | tools/tyr/tyr.py:180 | `rstrip("\n")` drops exactly the trailing run of that character |
| Strs.Find | tools/tyr/tyr.py:323 | `find` gives the first occurrence, or none when there is no occurrence |
| Strs.SplitOnce | tools/tyr/tyr.py:220 | `split(sep, 1)` succeeds exactly when the separator occurs; the parts rebuild the input and the first part holds no separator |
| Strs.SplitAt | tools/tyr/tyr.py:265 | splitting at the first occurrence of a character rebuilds the input and the head holds no such character |
| Strs.Split | tools/tyr/tyr.py:519 | `split(c)` gives at least one part, no part holds the separator, and joining the parts with it gives back the input |
| Strs.SplitJoin | tools/tyr/tyr.py:519 | splitting a join of separator-free parts gives back the parts |
| Strs.SplitAppend | tools/tyr/tyr.py:453 | splitting text glued at one separator splits each side separately |
| Strs.JoinAt | tools/tyr/tyr.py:519-521 | a join splits into the join of the first k parts, the separator, and the join of the rest |
| Strs.LastIndexOf | tools/tyr/tyr.py:516 | the position found holds the character and no later position does; none when the character is absent |
| Strs.InnerOfWrapped | tools/tyr/tyr.py:145-147 | cutting the first and the last character (`Inner`, Python's `v[1:-1]`) gives back any text that was wrapped in a pair of quotes or brackets |
| Strs.LowerFolds | tools/tyr/tyr.py:777-779 | `lower()` (`Lower`) leaves no upper-case letter, lowering twice is lowering once, and text without upper-case letters is left as it is |
| Strs.ReplaceChar | tools/tyr/tyr.py:339 | `replace(a, b)` changes exactly the occurrences of `a`, character by character |
| Strs.NatToDec | tools/tyr/tyr.py:155 | the decimal digits written for n are digits and read back as n |
| Strs.IntToDecLiteral | tools/tyr/tyr.py:155 | every integer's decimal text is an integer literal whose value is that integer |
| Strs.ParseSignedLiteral | tools/tyr/tyr.py:153-157 | `int(v)` of an integer literal gives that literal's value |
| Strs.NoUnderscoresKept | tools/tyr/tyr.py:155 | plain digits are valid for `int()` and dropping underscores leaves them as they are |
| Values.Get | tools/tyr/tyr.py:392 | a dictionary lookup finds a value exactly when the key is present, and the value is one stored under that key |
| Values.Put | tools/tyr/tyr.py:270-272 | after `d[key] = v` the key maps to v, every other key is unchanged, and a new key goes at the end |
| Values.PutKeepsKeysUnique | tools/tyr/tyr.py:270-272 | storing into a dictionary keeps its keys distinct |
| Values.PyStrs | tools/tyr/tyr.py:370 | `[str(x) for x in xs]` keeps length and order |
| Values.PyStrOfContainers | tools/tyr/tyr.py:221 | `str()` of a list or a dictionary writes its items by `repr`: strings in single quotes, others as `str()`, separated by ", " |
| Values.PyStrOfScalars | tools/tyr/tyr.py:221 | `str()` of a string is the string, of an integer its decimal text, of None the text "None" |
| Values.PyStrEmpty | tools/tyr/tyr.py:667 | `str(v)` is empty only for the empty string |
| Values.PyIntOfDecimal | tools/tyr/tyr.py:532 | `int()` (`PyInt`, which also takes an integer as itself and a boolean as 0 or 1) of an integer's decimal text gives the integer back |
| Ordering.StrOrderIsTotalOrder | tools/tyr/tyr.py:485 | Python's string comparison is a total order |
| Ordering.Insert | tools/tyr/tyr.py:485 | inserting into a sorted list keeps it sorted and adds exactly that element |
| Ordering.SortBy | tools/tyr/tyr.py:485 | `sorted` gives a sorted permutation of its input |
| Ordering.SortedUnique | tools/tyr/tyr.py:865 | two sorted permutations of the same elements are equal |
| Ordering.SortEqualIffPermutation | tools/tyr/tyr.py:865 | two lists sort to the same list exactly when they hold the same elements with the same counts |
| Ordering.SortedSetUnique | tools/tyr/tyr.py:899 | two sorted duplicate-free lists with the same elements are equal |
| Ordering.NoDupPermutation | tools/tyr/tyr.py:790 | a permutation of a duplicate-free list is duplicate-free with the same elements |
| Ordering.Dedup | tools/tyr/tyr.py:790 | `set()` keeps every element once and loses none |
| Ordering.SortedSet | tools/tyr/tyr.py:898 | `sorted(set(xs))` is sorted, duplicate-free and holds exactly the elements of xs |
| Ordering.SortedSetEqualIff | tools/tyr/tyr.py:898-899 | two `sorted(set(...))` lists are equal exactly when their inputs hold the same elements |
| Ordering.SortedFromSet | tools/tyr/tyr.py:525 | `sorted` over a set gives a sorted duplicate-free list of exactly that set |
| Ordering.SortedOfUnique | tools/tyr/tyr.py:525 | a set has exactly one sorted duplicate-free listing |
| RepoPaths.Normalize | tools/tyr/tyr.py:338-344 | a normalised path holds no backslash and is no longer than the input |
| RepoPaths.NormalizeIgnoresDotSlash | tools/tyr/tyr.py:340-341 | a leading "./" does not change the normalised path |
| RepoPaths.NormalizeIgnoresBackslashes | tools/tyr/tyr.py:339 | writing the separators as backslashes does not change the normalised path |
| RepoPaths.NormalizeKeepsCleanPath | tools/tyr/tyr.py:338-344 | a path without backslash, "./" or leading "/" is its own normal form |
| RepoPaths.NormalizeNotIdempotent | tools/tyr/tyr.py:340-343 | "/./q" normalises to "./q", which normalises again to q: normalising twice can differ from once |
| RepoPaths.NormalizeRooted | tools/tyr/tyr.py:342-343 | a single leading "/" is dropped |
| RepoPaths.NormalizeSlash | tools/tyr/tyr.py:338-344 | appending "/" to a path whose normal form is neither empty nor "." appends "/" to its normal form |
| RepoPaths.Dirname | tools/tyr/tyr.py:516 | `os.path.dirname` is a prefix of the path, empty when the path has no slash |
| RepoPaths.DirnameOfChild | tools/tyr/tyr.py:516 | the directory of "dir/name" is dir |
| RepoPaths.Ancestors | tools/tyr/tyr.py:519-521 | the k-th listed directory is the first k+1 segments joined with "/" |
| RepoPaths.AncestorsExactly | tools/tyr/tyr.py:519-521 | a directory is listed exactly when it is the parent or one of its ancestors |
| RepoPaths.DirsUnderExactly | tools/tyr/tyr.py:517-521 | the directories probed for a parent are its ancestors, and none for "" or "." |
| Glob.PatternBody | tools/tyr/tyr.py:299-303 | the pattern body is a suffix of the stripped pattern |
| Glob.PatternBodyClean | tools/tyr/tyr.py:299-303 | a clean pattern is its own body |
| Glob.PatternBodyDotSlash | tools/tyr/tyr.py:300-301 | a leading "./" is removed from a pattern |
| Glob.PatternBodySlash | tools/tyr/tyr.py:302-303 | a leading "/" is removed from a pattern |
| Glob.Tokenize | tools/tyr/tyr.py:305-335 | the translation emits at most one token per character of the pattern body |
| Glob.GlobMatches | tools/tyr/tyr.py:695-696 | a pattern whose body holds no glob character matches exactly that body, or the body followed by a final newline |
| Glob.RenderTokenize | tools/tyr/tyr.py:305-332 | translation loses nothing: the tokens spell out the pattern again |
| Glob.UnclosedBracket | tools/tyr/tyr.py:321-326 | a "[" with no later "]" is a literal bracket |
| Glob.ClosedBracket | tools/tyr/tyr.py:327-329 | a "[" up to the next "]" is one character class |
| Glob.TokenizePlain | tools/tyr/tyr.py:331-332 | text without glob characters translates to literals |
| Glob.Compile | tools/tyr/tyr.py:299-335 | the translation loop produces the token list of the pattern body |
| Glob.EmitTokens | tools/tyr/tyr.py:305-333 | the scanning loop emits exactly the tokens of the pattern |
| Glob.NextToken | tools/tyr/tyr.py:307-332 | one step of the scan consumes at least one character and emits the next token |
| Glob.StarSpan | tools/tyr/tyr.py:313-315 | `*` matches any run without "/" followed by a match of the rest |
| Glob.DoubleStarSpan | tools/tyr/tyr.py:309-312 | `**` matches any run without a newline followed by a match of the rest |
| Glob.Wildcards | tools/tyr/tyr.py:309-320 | `*` matches exactly the texts without "/", `**` those without a newline, `?` one character other than "/" |
| Glob.LitsThen | tools/tyr/tyr.py:331 | literals match exactly their own text at the front |
| Glob.PlainPattern | tools/tyr/tyr.py:331-335 | a pattern without glob characters matches only itself, or itself plus a final newline, because `$` also matches before one |
| Glob.FolderGlob | tools/tyr/tyr.py:309-312 | "dir/**" matches every single-line path under dir |
| Yaml.SplitLines | tools/tyr/tyr.py:179 | `splitlines()` gives lines without line breaks |
| Yaml.SplitLinesUnlines | tools/tyr/tyr.py:179 | lines joined with newlines split back into the same lines |
| Yaml.WithoutComment | tools/tyr/tyr.py:121-131 | the kept text is a prefix of the line, ends at the first "#" outside quotes, and holds no such "#" |
| Yaml.StripComment | tools/tyr/tyr.py:121-131 | the quote-tracking loop returns the line without its comment |
| Yaml.UnquotedComment | tools/tyr/tyr.py:121-131 | on a line without quotes the comment starts at the first "#" |
| Yaml.Indent | tools/tyr/tyr.py:183 | the indent is the leading run of spaces |
| Yaml.PrepareOne | tools/tyr/tyr.py:180-186 | one raw line is skipped, kept as (indent, stripped text), or rejected by the tab test as the source writes it |
| Yaml.Prepared | tools/tyr/tyr.py:178-186 | preparation keeps at most one line per raw line and never a blank one |
| Yaml.PrepareLines | tools/tyr/tyr.py:178-186 | the preparation loop over the text's lines gives the prepared lines or the first error, with the source's own tab test |
| Yaml.PrepareRaws | tools/tyr/tyr.py:178-186 | the same loop over a given list of raw lines |
| Yaml.PreparedNeverFails | tools/tyr/tyr.py:178-186 | with the tab test as written, preparation never raises |
| Yaml.TabCheckAsWrittenIsDead | tools/tyr/tyr.py:183-185 | as written, the tab check never fires |
| Yaml.TabIndentAcceptedAsWritten | tools/tyr/tyr.py:178-186 | as written, "\tb: 1" is accepted as "b: 1" at indent 0 |
| Yaml.TabInIndentCatchesTab | tools/tyr/tyr.py:184-185 | with the corrected test, a line starting with a tab has a tab in its indentation |
| Yaml.PreparedRejectsTabIndent | tools/tyr/tyr.py:178-186 | with the corrected test, a content line whose indentation holds a tab rejects the whole text |
| Yaml.ParseScalar | tools/tyr/tyr.py:134-164 | a scalar is never a mapping |
| Yaml.ParseFlowList | tools/tyr/tyr.py:146-151 | bracketed text always parses as a list |
| Yaml.ParseKeyword | tools/tyr/tyr.py:138-143 | "null", "true" and "false" read as null and the two booleans |
| Yaml.ParseRenderInt | tools/tyr/tyr.py:153-157 | an integer's decimal text reads back as that integer |
| Yaml.ParseRenderStr | tools/tyr/tyr.py:144-145 | a double-quoted text reads as the text between the quotes |
| Yaml.ParseRenderScalar | tools/tyr/tyr.py:134-157 | every inline value written out reads back as itself |
| Yaml.ParseRenderFlowList | tools/tyr/tyr.py:146-151 | a flow list written out reads back as the same list |
| Yaml.ParseEmptyFlowList | tools/tyr/tyr.py:147-149 | "[]" reads as the empty list |
| Yaml.Block | tools/tyr/tyr.py:190-201 | a block never moves the cursor back, and a parsed block is a list or a mapping |
| Yaml.Items | tools/tyr/tyr.py:202-251 | a sequence block never moves the cursor back and parses as a list |
| Yaml.Item | tools/tyr/tyr.py:204-250 | one `- ` item always consumes at least its own line |
| Yaml.Entries | tools/tyr/tyr.py:253-273 | a mapping block never moves the cursor back and parses as a mapping |
| Yaml.EntryValue | tools/tyr/tyr.py:267-272 | one `key:` entry always consumes at least its own line |
| YamlDoc.ParseRendered | tools/tyr/tyr.py:188-275 | `parse_block(0)` over the lines of any block document returns that document and stops after its last line |
| YamlDoc.BlockRendered | tools/tyr/tyr.py:188-201 | a document's lines placed anywhere, followed by end of input or a shallower line, parse back to the document and stop right after it |
| YamlDoc.BlockParsed | tools/tyr/tyr.py:190-201 | a block laid out from line i up to line k parses to its value and stops at k |
| YamlDoc.EntriesParsed | tools/tyr/tyr.py:253-273 | the mapping loop over laid-out entries appends each of them, in order, and stops where they end |
| YamlDoc.EntryParsed | tools/tyr/tyr.py:265-272 | one laid-out `key:` line reads its value, inline or as the nested block at indent + 2 |
| YamlDoc.ItemsParsed | tools/tyr/tyr.py:202-251 | the list loop over laid-out items appends each of them, in order, and stops where they end |
| YamlDoc.ItemParsed | tools/tyr/tyr.py:208-250 | one laid-out `- ` item reads back: a scalar, a nested block, or a mapping whose first key sits on the `- ` line |
| YamlDoc.ItemMapParsed | tools/tyr/tyr.py:219-248 | a "- key: value" item with its other keys at indent + 2 reads back as the whole mapping |
| YamlDoc.BlockHeight | tools/tyr/tyr.py:188-275 | a rendered block has as many lines as its height |
| YamlDoc.BlockLaid | tools/tyr/tyr.py:190-273 | rendered lines pass each test `parse_block` makes on them: indents, "-" prefixes, ':' and the scalars after it |
| YamlDoc.EntryLine | tools/tyr/tyr.py:265-267 | a rendered `key:` line splits back into its key and the text after ':' |
| YamlDoc.ItemLine | tools/tyr/tyr.py:210 | the text after the "-" of a rendered item is what was written there |
| YamlText.PreparedText | tools/tyr/tyr.py:178-186 | the text of indented plain lines prepares back to exactly those lines |
| YamlText.LoadRendered | tools/tyr/tyr.py:167-276 | `_load_simple_yaml` of a rendered document without '#' returns the document |
| YamlErrors.BlockFails | tools/tyr/tyr.py:190-273 | when `parse_block` raises, the cursor is on a line that shows the error: too deep for `BadIndentation`, a non-item line without ':' for `NotKeyValue`; it never raises the tab error |
| YamlErrors.EntriesFails | tools/tyr/tyr.py:253-273 | the same for the mapping loop |
| YamlErrors.ItemsFails | tools/tyr/tyr.py:202-251 | the same for the list loop |
| YamlErrors.LoadFails | tools/tyr/tyr.py:167-276 | `_load_simple_yaml` fails only in the block parse, on a line that shows the error, and never with the tab error |
| YamlReader.Reader.ParseBlock | tools/tyr/tyr.py:190-201 | the cursor-advancing block parser returns what `Block` gives, leaves the cursor where `Block` ends, and on error stops on the faulty line |
| YamlReader.Reader.ParseItems | tools/tyr/tyr.py:202-251 | the list loop agrees with `Items`, cursor included, and on error stops on the faulty line |
| YamlReader.Reader.ParseItem | tools/tyr/tyr.py:204-250 | one item agrees with `Item`, cursor included, and on error stops on the faulty line |
| YamlReader.Reader.ParseEntries | tools/tyr/tyr.py:253-273 | the mapping loop agrees with `Entries`, cursor included, and on error stops on the faulty line |
| YamlReader.Reader.ParseValue | tools/tyr/tyr.py:265-272 | a key's value agrees with `EntryValue`, cursor included, and on error stops on the faulty line |
| YamlReader.LoadSimpleYaml | tools/tyr/tyr.py:167-276 | the loader gives `Load`: the prepared lines parsed as one block at indent 0 |
| Zones.FolderPrefix | tools/tyr/tyr.py:402-410 | a folder key with an empty normal form is the root; any other becomes a non-empty prefix ending in "/" |
| Zones.FolderPrefixOf | tools/tyr/tyr.py:402-410 | a key whose normal form p is neither empty nor "." and has no final "/" classifies p + "/", and so does the same key written with a final "/" |
| Zones.FolderPrefixOfDir | tools/tyr/tyr.py:402-410 | a key whose normal form already ends in "/" classifies exactly that normal form |
| Zones.DotKey | tools/tyr/tyr.py:402-410 | the key "." classifies "./", a prefix no normalised path starts with |
| Zones.DotSlashKey | tools/tyr/tyr.py:402-408 | the key "./" normalises to "" and is a root entry, unlike "." |
| Zones.ReadZones | tools/tyr/tyr.py:392-393 | zones.yml that is not a mapping reads as empty; reading fails exactly when `folder_zones`, `file_overrides` or `defaults` is truthy and not a mapping (`MappingAt`, with `d.get(k) or {}` as `Values.GetOr`); the new-folder zone is never empty |
| Zones.ZoneForPath | tools/tyr/tyr.py:391-417 | the lookup loop returns the zone the specification `ZoneOf` gives |
| Zones.ConsiderEntry | tools/tyr/tyr.py:401-413 | one loop step updates the best prefix and zone as `Consider` says |
| Zones.ScanPrefix | tools/tyr/tyr.py:399-413 | the winning prefix is empty or belongs to a rule that matches the path |
| Zones.OverrideWins | tools/tyr/tyr.py:395-397 | a file override decides the zone whatever the folders say |
| Zones.LongestPrefixWins | tools/tyr/tyr.py:399-413 | the earliest of the longest matching prefixes wins the scan |
| Zones.WinnerExists | tools/tyr/tyr.py:399-413 | whenever some folder prefix matches, a winner exists |
| Zones.FolderZoneWins | tools/tyr/tyr.py:399-417 | without an override, the winning folder's zone is the path's zone; the scan runs over the `folder_zones` entries in order, each turned into one rule (`Rules`) |
| Zones.RootWhenNothingMatches | tools/tyr/tyr.py:403-408 | when no prefix matches, the first root entry decides |
| Zones.RootZone | tools/tyr/tyr.py:403-417 | without an override or a matching prefix, the first root entry's zone is the path's zone |
| Zones.UnclassifiedIsYellowAuto | tools/tyr/tyr.py:415-416 | a path matched by nothing is yellow-auto |
| Zones.ClassifiedPrefixes | tools/tyr/tyr.py:420-438 | the classified prefixes are exactly the rules' prefixes, longest first |
| Zones.StartsWithAny | tools/tyr/tyr.py:441-446 | a path is under some prefix exactly when it starts with one of them |
| Zones.ClassifiedExactly | tools/tyr/tyr.py:420-446 | a path is under a classified prefix exactly when some folder rule matches it |
| Zones.FindNewDir | tools/tyr/tyr.py:683-691 | the segment loop finds a new directory exactly when some ancestor of the parent is new |
| Zones.UnderNewDirExactly | tools/tyr/tyr.py:683-691 | a parent is under a new directory exactly when it is not the root and one of its ancestors is new |
| Zones.QuarantineExactly | tools/tyr/tyr.py:681-693 | a file gets the new-folder zone exactly when it lies under a new directory and no folder rule classifies it; otherwise it keeps its looked-up zone |
| Zones.Probe | tools/tyr/tyr.py:503-511 | the cached probe answers whether the directory existed at base and records the answer |
| Zones.AddAmong | tools/tyr/tyr.py:519-523 | the ancestor loop adds exactly the ancestors that did not exist at base, and the cache stays correct |
| Zones.AddNewDirs | tools/tyr/tyr.py:514-523 | one changed file adds exactly its parent's ancestors that did not exist at base |
| Zones.NewDirsInExactly | tools/tyr/tyr.py:513-525 | a directory is reported new exactly when it did not exist at base and is an ancestor of some changed file's non-root parent |
| Zones.RootFilesAddNothing | tools/tyr/tyr.py:517-518 | a file at the repository root adds no new directory |
| Zones.DetectNewDirectories | tools/tyr/tyr.py:495-525 | the result is sorted, duplicate-free and exactly the new directories |
| Diff.TripleLeqIsTotalOrder | tools/tyr/tyr.py:485 | the order on (status, path, extra) triples is a total order |
| Diff.EntryOrderIsTotalOrder | tools/tyr/tyr.py:865 | the order the manifest comparison sorts by is a total order |
| Diff.SortByKey | tools/tyr/tyr.py:485 | diff records are sorted by key without losing or adding any |
| Diff.SortRecords | tools/tyr/tyr.py:865 | `sorted()` of records is a sorted permutation |
| Diff.SortedRecordsEqualIff | tools/tyr/tyr.py:865 | two record lists sort equal exactly when they are permutations of each other |
| Diff.Parsed | tools/tyr/tyr.py:449-486 | the parse fails exactly when the record scan fails; otherwise it is the scanned records, sorted |
| Diff.RecordsFrom | tools/tyr/tyr.py:449-486 | the record scan makes no more records than there are tokens; every record has a one-letter status and carries a new path exactly when it is a rename |
| Diff.ParseNameStatusZ | tools/tyr/tyr.py:449-486 | the parsing loop gives the specification's result, errors included |
| Diff.RenameRecordAt | tools/tyr/tyr.py:467-477 | a status starting with R takes two paths and records both normalised |
| Diff.PlainRecordAt | tools/tyr/tyr.py:479-483 | any other status takes one path and records its first letter |
| Diff.RecordsOfTerminator | tools/tyr/tyr.py:461-464 | the empty field after the last NUL ends the scan |
| Diff.ParseSerialized | tools/tyr/tyr.py:449-486 | parsing git's NUL-separated output of a record list gives back those records, sorted |
| Diff.Union | tools/tyr/tyr.py:612-615 | the coding-stage union is sorted, duplicate-free and holds exactly the unstaged, staged and untracked records, each untracked file an addition of its normalised name (`Untracked`) |
| Diff.Unignored | tools/tyr/tyr.py:620-630 | the filter keeps exactly the records that are not the validator's own reports |
| Diff.DropReports | tools/tyr/tyr.py:620-630 | the filtering loop gives the specification's list |
| Diff.SplitAtArrow | tools/tyr/tyr.py:845 | a rename display splits at its first arrow into the old and the new path |
| Diff.DisplayPath | tools/tyr/tyr.py:637-642 | a record other than a rename is shown under its path; a rename's "old -> new" splits back at its first arrow into its two paths, unless an arrow starts inside the old path |
| Plan.ListItem | tools/tyr/tyr.py:374-377 | a line is a list item exactly when it is "-", a space and more; the item is the non-empty stripped rest |
| Plan.ZonesOf | tools/tyr/tyr.py:367-372 | expected zones fail only for values that cannot be iterated (`Values.Iterate`: a list yields its items, a string its characters); a list gives its items as strings |
| Plan.Classify | tools/tyr/tyr.py:360-386 | a line is a header exactly when it starts with one of the two headings, and the section follows the heading |
| Plan.ReadLine | tools/tyr/tyr.py:360-386 | the line reader classifies as the specification does |
| Plan.ApplyLine | tools/tyr/tyr.py:361-386 | one line updates section and lists as `Apply` says |
| Plan.ParsePlanScopes | tools/tyr/tyr.py:347-388 | the plan reading loop gives the specification's scopes |
| Plan.ReadPlanLines | tools/tyr/tyr.py:359-388 | the loop over given lines gives the specification's scopes |
| Plan.CrashIsFinal | tools/tyr/tyr.py:367-370 | once a line raises, the whole plan read raises |
| Plan.ListsOnlyGrow | tools/tyr/tyr.py:383-386 | later lines only append to the allowed and forbidden lists |
| Plan.ItemsNeedAHeader | tools/tyr/tyr.py:383-386 | items before any heading are ignored |
| Plan.ForbiddenIsNotAllowed | tools/tyr/tyr.py:361-366 | the forbidden heading is never taken for the allowed one |
| Plan.ClassifyItem | tools/tyr/tyr.py:374-386 | "- x" is read as the item x |
| Plan.ZonesOfText | tools/tyr/tyr.py:367-372 | a bracketed zone list reads back as its zones |
| Plan.BareZonesAreCharacters | tools/tyr/tyr.py:370 | unbracketed expected zones yield one zone per character |
| Plan.PlanRoundTrip | tools/tyr/tyr.py:347-388 | a plan written out from its scopes reads back as those scopes |
| Plan.AllowList | tools/tyr/tyr.py:652-654 | a non-empty allowed list is used as is; an empty one is replaced by a non-empty fallback |
| Plan.AnyMatch | tools/tyr/tyr.py:695-696 | a path is allowed exactly when some pattern matches it |
| Plan.FolderPatternMatches | tools/tyr/tyr.py:654 | the intent-folder glob matches exactly the paths inside the folder |
| Plan.IntentFilePatternMatches | tools/tyr/tyr.py:654 | the `current-intent.json` glob matches only that file |
| Plan.ExactPattern | tools/tyr/tyr.py:299-335 | a clean pattern without glob characters matches only itself |
| Plan.FallbackAllowsIntentFolder | tools/tyr/tyr.py:652-654 | with no allowed list, a path is allowed exactly when it is in the intent folder or is `current-intent.json` |
| RedOps.ReadOp | tools/tyr/tyr.py:741-749 | an operation raises exactly when its match is truthy but not a mapping; one with an id is read with that id |
| RedOps.Candidates | tools/tyr/tyr.py:756-759 | a plain path is its own candidate; a rename gives its old and new path |
| RedOps.FirstDecided | tools/tyr/tyr.py:761-785 | the first candidate that decides settles the entry, and every candidate is tried when none fires |
| RedOps.FirstDecidedTotal | tools/tyr/tyr.py:761-785 | when every candidate decides, the entry fires exactly when some candidate does |
| RedOps.EntryHit | tools/tyr/tyr.py:751-788 | an entry misses exactly when all its candidates miss |
| RedOps.CandidateHitExactly | tools/tyr/tyr.py:762-784 | a candidate hits exactly when a path rule or a lower-cased pattern token matches it |
| RedOps.RuleHitIgnoresPatterns | tools/tyr/tyr.py:764-775 | a matching path rule decides the hit before any pattern is looked at |
| RedOps.EntryHitExactly | tools/tyr/tyr.py:751-788 | an entry hits exactly when one of its candidates matches |
| RedOps.RenameCandidates | tools/tyr/tyr.py:757-759 | a rename's candidates are its old and new path |
| RedOps.OpFiresExactly | tools/tyr/tyr.py:751-788 | an operation fires exactly when some changed entry matches it |
| RedOps.DetectedIdsExactly | tools/tyr/tyr.py:741-790 | an id is detected exactly when some operation carrying it fires |
| RedOps.DetectedExactly | tools/tyr/tyr.py:736-790 | the same from the configuration value, over its `operations` list (`Operations`: a missing or empty list means none) |
| RedOps.RenamedFromRedPath | tools/tyr/tyr.py:755-775 | renaming a file away from a red path still fires the operation |
| RedOps.DeclarationFindings | tools/tyr/tyr.py:798-818 | from level 3, an undeclared detected op and a declared undetected op are each reported once; below level 3 nothing is. The declared ops are the manifest's `red_ops_observed` read as strings (`Declared`), none without a manifest |
| RedOps.DeclarationAgrees | tools/tyr/tyr.py:798-818 | from level 3 the declaration passes exactly when declared and detected ops are the same set |
| RedOps.MatchCandidate | tools/tyr/tyr.py:762-784 | the candidate loop agrees with `CandidateHit` |
| RedOps.AnyRuleHits | tools/tyr/tyr.py:764-773 | the path-rule loop agrees with the specification |
| RedOps.AnyTokenHits | tools/tyr/tyr.py:777-782 | the token loop agrees with the specification |
| RedOps.FirstHit | tools/tyr/tyr.py:633-635 | the search finds a hit exactly when some element satisfies the test |
| RedOps.MatchEntry | tools/tyr/tyr.py:751-788 | the entry loop agrees with `EntryHit` |
| RedOps.MatchOp | tools/tyr/tyr.py:751-788 | the operation loop agrees with `OpFires` |
| RedOps.DetectOne | tools/tyr/tyr.py:741-788 | one operation updates the detected ids as `DetectStep` says |
| RedOps.DetectRedOps | tools/tyr/tyr.py:736-790 | detection fails exactly when the specification fails; otherwise it gives the sorted, duplicate-free detected ids |
| RedOps.FoldCrashIsFinal | tools/tyr/tyr.py:741-749 | once an operation raises, detection raises |
| Manifest.ReadItem | tools/tyr/tyr.py:832-853 | a manifest record carries a new path exactly when it is a rename; a rename flagged for its missing arrow has no arrow |
| Manifest.RenameFindings | tools/tyr/tyr.py:841-844 | one MANIFEST_RENAME per bad rename, and for exactly those paths |
| Manifest.ReadingFindings | tools/tyr/tyr.py:841-872 | renames, zone mismatch and diff mismatch are each reported exactly when they occur; a multiset mismatch against the diff is a diff mismatch |
| Manifest.FilesFindings | tools/tyr/tyr.py:825-872 | a format error exactly when `changed_files` is not a list; zone and diff mismatch exactly when the items show one |
| Manifest.ReadItems | tools/tyr/tyr.py:832-853 | the items are read in order, and a zone mismatch is only ever found on a record |
| Manifest.ReadItemsCount | tools/tyr/tyr.py:832-853 | each item yields at most one record or one arrow-less rename |
| Manifest.ShaFindings | tools/tyr/tyr.py:874-893 | each SHA finding is reported exactly under its condition |
| Manifest.ManifestFindings | tools/tyr/tyr.py:820-906 | a wrong schema version is always reported; a manifest without findings has a `changed_files` list whose records are in their zones and are, counted, the records of the diff |
| Manifest.BaseShaNeverMismatches | tools/tyr/tyr.py:875 | with the base SHA chosen as the validator chooses it (`BaseSha`: the manifest's string `base_sha`, else git's), the base-SHA mismatch is never reported |
| Manifest.NewPathsExactly | tools/tyr/tyr.py:895-906 | the new-paths mismatch is reported exactly when the declared set, each path normalised (`NormalizedStrs`), differs from the detected set |
| Manifest.ZoneMismatchExactly | tools/tyr/tyr.py:852-862 | the zone mismatch flag is set exactly when some item's expected zone is wrong |
| Manifest.BadRenamesExactly | tools/tyr/tyr.py:841-844 | a path is a bad rename exactly when some item reads as a rename without arrow for it |
| Manifest.RenameItemWithoutArrow | tools/tyr/tyr.py:835-844 | an R item whose normalised path has no arrow is read as a bad rename of that path |
| Manifest.RenameReportedExactly | tools/tyr/tyr.py:841-844 | MANIFEST_RENAME names exactly the paths of arrowless rename items |
| Manifest.RecordsKeepNewPathOfRenames | tools/tyr/tyr.py:841-849 | every record from the manifest carries a new path exactly when it is a rename |
| Manifest.ReadItemOf | tools/tyr/tyr.py:832-853 | a diff record restated as a manifest item reads back as itself |
| Manifest.RestatedDiffPasses | tools/tyr/tyr.py:825-872 | a manifest that restates the diff raises no changed-files finding |
| Manifest.ReconcileItems | tools/tyr/tyr.py:832-853 | the item loop gives the specification's reading |
| Manifest.CheckFiles | tools/tyr/tyr.py:825-872 | the changed-files check gives the specification's findings |
| Manifest.CheckManifest | tools/tyr/tyr.py:820-906 | the manifest check gives the specification's findings |
| Verdict.Codes | tools/tyr/tyr.py:913 | there are codes exactly when there are errors |
| Verdict.ExitCode | tools/tyr/tyr.py:908-927 | the exit code is 0 exactly when there are no errors, and otherwise one of the category codes |
| Verdict.FirstCategory | tools/tyr/tyr.py:914-927 | the code chosen is that of a category present in the table, or unknown |
| Verdict.ExitCodeByPrecedence | tools/tyr/tyr.py:914-927 | the `if/elif` chain picks the first category of the precedence table that is present |
| Verdict.MissingArtifactIsMissing | tools/tyr/tyr.py:914 | the separate test for MISSING_ARTIFACT never decides anything |
| Verdict.ExitCodeOfSameCodes | tools/tyr/tyr.py:913 | the exit code depends only on which codes occur |
| Verdict.MissingDominates | tools/tyr/tyr.py:914-915 | any MISSING_ code decides the exit code |
| Verdict.UnknownOnlyAlone | tools/tyr/tyr.py:926-927 | the unknown exit code appears exactly when no category prefix is present |
| Verdict.GovernanceLevel | tools/tyr/tyr.py:528-535 | the level fails only for scalar configurations; a list or string configuration gives level 1 |
| Verdict.GovernanceLevelFirstKeyWins | tools/tyr/tyr.py:529-534 | `governance_level` wins over `level`, and an unreadable value means level 1 |
| Verdict.GovernanceLevelOfText | tools/tyr/tyr.py:532 | a decimal string level reads as its number |
| Failures.ExceptionExit | tools/tyr/tyr.py:955-961 | an exception is routed to 10, 20 or 80 |
| Failures.ArtifactContractExit | tools/tyr/tyr.py:958-959 | the artifact-contract message routes to 20 |
| Failures.MissingConfigExit | tools/tyr/tyr.py:958-959 | a missing configuration file routes to 20 |
| Failures.QuotedLineExit | tools/tyr/tyr.py:956-957 | a YAML error quoting a line that mentions current-intent routes to 10, not 20 |
| Validate.LoadConfigs | tools/tyr/tyr.py:562-566 | a missing governance file is the first failure; success needs all three files; only those three can be missing |
| Validate.Changes | tools/tyr/tyr.py:605-615 | the changed records are sorted by key; while coding they fail only on a malformed diff, hold no record twice and are exactly the unstaged, staged and untracked records |
| Validate.FileOf | tools/tyr/tyr.py:672-693 | a row keeps its record's status; its zone is the match path's zone or the new-folder zone, always the former with no new directory; a rename with a new path takes that path's zone or the new-folder zone |
| Validate.Policy | tools/tyr/tyr.py:644-906 | a judged change set has one row per record, in order, under its display path (`Displays`, with `NewDirPaths` probing the part after the arrow) and status (`ChangedFiles`); the only warning is the quarantine (`Warnings`), and from level 2 there is none; judging needs readable plan scopes and zones |
| Validate.Errors | tools/tyr/tyr.py:715-906 | below level 3 only per-file errors and, from level 2, the quarantine error remain |
| Validate.Collect | tools/tyr/tyr.py:908-951 | a completed report is ok exactly when it has no errors, exactly when its exit code is 0 |
| Validate.Validate | tools/tyr/tyr.py:550-984 | a run completes only with the three configuration files, intent.md and metadata.json present and a manifest that is not broken JSON; its report then passes exactly when it lists no error, and only then with exit code 0 |
| Validate.Evaluate | tools/tyr/tyr.py:550-984 | the validator gives the specification's outcome |
| Validate.ReadConfig | tools/tyr/tyr.py:279-284 | reading one configuration file gives the specification's result |
| Validate.ReadConfigs | tools/tyr/tyr.py:562-566 | reading the three configuration files gives the specification's result |
| Validate.CollectAndJudge | tools/tyr/tyr.py:644-951 | the judging part gives the specification's outcome |
| Validate.FindRenameWithoutNewPath | tools/tyr/tyr.py:632-635 | the search flags exactly a rename without a new path |
| Validate.ReadChanges | tools/tyr/tyr.py:605-630 | the diff collection gives the specification's changes |
| Validate.ReadPlan | tools/tyr/tyr.py:644-650 | the plan read gives the specification's scopes |
| Validate.RunPolicy | tools/tyr/tyr.py:660-906 | the policy checks give the specification's findings |
| Validate.JudgeChanges | tools/tyr/tyr.py:671-713 | the per-file loop gives the specification's rows and findings |
| Validate.JudgeOne | tools/tyr/tyr.py:672-713 | one change gives its row and findings |
| Validate.ZoneOfChange | tools/tyr/tyr.py:681-711 | the zone used for a change is the effective zone, quarantine included |
| Validate.RecordFindingsExactly | tools/tyr/tyr.py:695-711 | for one change, each plan or zone finding occurs exactly under its condition, and every finding names that change |
| Validate.FileFindingsExactly | tools/tyr/tyr.py:695-711 | the same for the three per-file conditions |
| Validate.PlanFindingsExactly | tools/tyr/tyr.py:671-713 | a finding of the loop is exactly a finding of some change |
| Validate.PerFileExactly | tools/tyr/tyr.py:671-713 | each per-file code names exactly the changes that violate its condition |
| Validate.PlanFindingsShape | tools/tyr/tyr.py:671-713 | every per-file finding has a per-file code and names a changed path |
| Validate.PlanFindingsCodes | tools/tyr/tyr.py:671-713 | the loop only emits per-file codes |
| Validate.YellowExactly | tools/tyr/tyr.py:715-734 | a yellow-auto touch is an error from level 2 and a warning below, reported at most once |
| Validate.RaisedReport | tools/tyr/tyr.py:963-974 | an exception report fails with one VALIDATOR_EXCEPTION, no rows, no warnings and exit 10, 20 or 80 |
| Validate.MissingConfigStops | tools/tyr/tyr.py:562-566 | a missing configuration file stops validation with exit 20 and no SHAs |
| Validate.BrokenArtifactsStop | tools/tyr/tyr.py:576-591 | missing intent artifacts, or a missing manifest from level 3, stop validation with exit 20 |
| Validate.CompletedBelowLevelThree | tools/tyr/tyr.py:715-906 | a completed validation below level 3 reports only per-file errors and the level-2 quarantine |
| Validate.CollectBelowLevelThree | tools/tyr/tyr.py:715-906 | the same for the judging part |
| Validate.ReportedShas | tools/tyr/tyr.py:593-618 | a completed report names the manifest's string `base_sha` (git's parent commit without a manifest) and, as the working commit, HEAD after coding and, while coding, the manifest's `working_sha` exactly when it is a non-empty string (`BaseSha`, `WorkingSha`) |
| Validate.ReportsNeverJudged | tools/tyr/tyr.py:620-630 | no changed-file row other than a rename carries one of the validator's report paths. The filter drops a record when its path or either path of a rename is a report file; a rename's row is left aside only because it carries the display "old -> new" rather than a single path |
| Validate.UnignoredRows | tools/tyr/tyr.py:620-630 | the same for the rows of the filtered records |

## Left out

- Floating-point scalars (tools/tyr/tyr.py:159-163): a scalar that `float()` would accept is read as a string. This changes the outcome: `governance_level: 3.0` gives `int(3.0) == 3` in Python (tools/tyr/tyr.py:530), but the model reads `Str("3.0")`, `Verdict.GovernanceLevel` falls back to 1, and every level-3 check is skipped.
- Values.PyStr: `repr` of a string inside a list or dictionary always uses single quotes. Python uses double quotes when the string holds a `'` and no `"`, and escapes backslashes and control characters. The model's text differs from Python's only for such strings.
- YamlText.LoadRendered: covers rendered documents with no '#' on any line; a quoted string holding '#' would be cut at the '#' by the comment stripper, so no round trip holds for it.
- JSON parsing is left out: `intent.md` and `metadata.json` are present or absent, and the manifest is missing, invalid JSON or an already parsed value.
- The invalid-JSON message does not carry the decoder's text.
- Messages name repository-relative paths where Python names absolute ones (tools/tyr/tyr.py:111, 113, 283).
- Failures.MissingConfigExit: the message uses the relative path. Python's message uses the absolute repository root, so a root whose name contains "current-intent" would route to 10 instead.
- git and the file system are not modelled:
  - process failures of `_run_git` (tools/tyr/tyr.py:85-104) are left out;
  - `rev-parse` (tools/tyr/tyr.py:597-603) and the `cat-file` probe (tools/tyr/tyr.py:503-511) are inputs, a string and the predicate `existedAtBase`;
  - `ls-files` output is a list of names (tools/tyr/tyr.py:489-492).
- `_active_intent_folder` (tools/tyr/tyr.py:538-547) is not modelled; the intent folder is an input.
- Glob character classes: membership in a bracket class is the predicate `cls`. Python's regex class syntax is not modelled. An invalid class such as `[z-a]` makes `re.compile` raise (tools/tyr/tyr.py:327-335), an exception the handler does not catch, so Python crashes where the model completes.
- Zones.ReadZones: a truthy `file_overrides` that is not a mapping makes the model's run crash (`Crashed`) as soon as the zones are read. Python fails only when it looks a path up (tools/tyr/tyr.py:396-397, reached from 675, 679, 847 and 850):
  - an integer or `True` raises at the first lookup;
  - a list raises only when a looked-up path is one of its items, and a string only when a looked-up path is a substring of it;
  - otherwise, and always when there is no changed file and no manifest item to look up, Python completes as if there were no overrides, where the model crashes.
  A truthy `folder_zones` or `defaults` that is not a mapping crashes in both (tools/tyr/tyr.py:667-668).
- Other configuration shape errors also raise as soon as they are read in the model (the `Crashed` outcome), where Python raises some of them only when the value is used.
- Verdict.Finding: a finding keeps only its code and path. The `message` and `details` of a validation message (tools/tyr/tyr.py:33-37) are dropped. These include the zone and expected zones of ZONE_EXPECTATION_VIOLATION (704-710), the paths and new paths of YELLOW_AUTO_QUARANTINE (722-731), the detected and declared ids of the red-op findings (802-816), and the mismatches, diff, manifest and new paths of the manifest findings (857-904). The report's `stage` and `intent_folder` fields are not modelled either.
- Strs.Lower: only ASCII letters are mapped; Python lower-cases all of Unicode.
- Diff.Union: holds the union as a set sorted by key. The order of two records with equal keys is Python's `sorted` stability over a `set`, which is not modelled.
- Timestamps, the command line, `main`, writing the report file and printing (tools/tyr/tyr.py:53-82, 116-118, 942-949, 976-1000) are not modelled.
- Failures.ExceptionExit: exit codes are proved only for three messages: the artifact contract, a missing configuration file, and a quoted YAML line. Every other raised message only has the fact that it routes to 10, 20 or 80.

## Findings

| source | as written | input that shows it | evidently intended | confidence | as-written member | corrected member |
|---|---|---|---|---|---|---|
| tools/tyr/tyr.py:183-185 | the indent is measured with `lstrip(" ")`, so `raw[:indent]` holds only spaces and the tab test can never fire | the line "\tb: 1" is accepted as `b: 1` at indent 0 | reject a content line whose leading blanks contain a tab | not executed | Yaml.TabIndentAcceptedAsWritten | Yaml.PreparedRejectsTabIndent |
