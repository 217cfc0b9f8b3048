# Maizzle string renderer, plaintext generator and Tailwind compile step

This project models three parts of the Maizzle email build pipeline and
proves properties of them.

- **`toString`** turns a template string into email HTML. It:
  - checks its first argument;
  - picks the config (the caller's, or the caller's deep-merged with the front matter);
  - resolves the layout;
  - compiles the Tailwind CSS;
  - renders the template, then keeps re-rendering it through each layout its output declares;
  - rewrites escaped class names in the head CSS and class attributes in the body;
  - hands the HTML to the `afterRender` hook, the transformers and the `afterTransformers` hook, in that order.
- **The plaintext generator** does three things:
  - it maps the `<plaintext>` and `<not-plaintext>` tags of the HTML tree;
  - it strips the original HTML to text;
  - it works out the plaintext file's destination, with three tiers of precedence.
- **The Tailwind `compile` step** does four things:
  - it chooses the Tailwind config;
  - it merges that config over a base config whose `content.files` lists the layouts glob, the components glob and the raw HTML;
  - it expands every `build.templates.source` into content entries;
  - it orders the PostCSS plugins and the CSS preamble, then runs PostCSS. A failed run is wrapped as a `SyntaxError`; a plugin list that PostCSS rejects fails with PostCSS's own error.

Modules:

- `Js` models the JavaScript values the code inspects, and how it inspects them:
  - truthiness, `typeof`, `length`, property reads that throw on undefined and null;
  - lodash `get`, `isObject` and `isEmpty`;
  - template-literal interpolation.
- `Paths` models the POSIX forms of `path.extname`, `path.basename(p, ext)`, `path.dirname`, `path.normalize` and `path.join`.
- `Sanitizer` holds the two regular-expression rewrites (`toString.js` lines 70-82). Each is written as a left-to-right scanner: at every position it tries the pattern, then either rewrites the match or copies one character. This is what `String.prototype.replace` with a global regular expression does.
- `Render` is the orchestrator. The parser, template engine, compiler, transformers and hooks are the fields of an `Engines` record.
  - Specification functions (`Page`, `Rendered`, `Chain`, `Finish`, `Pipeline`) define the result.
  - Methods carry out the same steps imperatively, and each method is proved equal to its function.
  - The layout loop is a `while` loop with a fuel bound, because the source loop has no bound of its own.
- `Plaintext` holds the tree walk (a node datatype), the destination resolver, and the `Generate` method.
- `Tailwind` holds three things:
  - the lodash `merge` of the base config with the user's config;
  - the content-list assembly and the plugin list, as specification functions;
  - the methods `Compile`, `Stage`, `AddTemplates` and `MapTemplates`, which build them step by step.

  The filesystem, `require`, the plugin calls and PostCSS are the fields of a `Tooling` record. PostCSS is split into two fields, the check of the plugin list and the run: the check happens outside the promise chain, so only a failed run is wrapped.

Behaviour worth noting:

- **The `RangeError` guard never fires for a string.** The guard `str && str.length < 1` is false for every string, so the empty string passes both guards. The guard does fire for some non-strings: an empty array, or a function with no parameters. `Render.GuardTable` and `Render.RangeErrorOnlyForNonStrings` state both facts.
- **The body rewrite is not idempotent.** The class pattern can match a quote inside an earlier attribute and skip the text behind it. So a second pass can change a string that the first pass left as it is. `Sanitizer.SanitizeNotIdempotent` shows this on `class="a/b class=" x/y"`.
- **The raw HTML entry can be lost.** lodash `merge` merges arrays index by index. When the user's `content` is an object whose `files` array holds three or more strings, those strings overwrite the base list, and the raw HTML entry with it. `Tailwind.ObjectContentIndexWise` states this. The raw entry is re-appended only when `content` is an array (`Tailwind.ArrayContentGetsRaw`).

## Model

| member | source | states |
|---|---|---|
| Render.Guard | src/generators/output/toString.js:11-17 | defines the two guards on the first argument, in source order |
| Render.GuardTable | src/generators/output/toString.js:11-17 | every string passes both guards, including the empty one; a non-string fails with a RangeError exactly when it is truthy and has a length below one, and with the TypeError naming the value otherwise |
| Render.RangeErrorOnlyForNonStrings | src/generators/output/toString.js:11-17 | the RangeError fires for an empty array and for a zero-arity function, and `false` gets the TypeError |
| Render.NonStringFails | src/generators/output/toString.js:11-17 | a non-string first argument makes the whole render fail with the guard's error, whatever the options and engines are, and that error is a TypeError unless the value is truthy with a length below one |
| Render.TailwindConfigOf | src/generators/output/toString.js:20 | when `options` and `options.tailwind` are truthy and `typeof options.tailwind.config` is `'object'`, that config is handed on as it is (so it is null, an array or an object); otherwise the config is `null` |
| Render.MaizzleConfigOf | src/generators/output/toString.js:21 | when `options` and `options.maizzle` are truthy and `typeof options.maizzle.config` is `'object'`, the Maizzle config is that value; otherwise it is `null` |
| Render.CssOf | src/generators/output/toString.js:19 | defines the CSS: `options.tailwind.css` when it is a string, else the two Tailwind directives |
| Render.Deepmerge | src/generators/output/toString.js:30 | defines deepmerge's default merge: a value of the other kind replaces, arrays concatenate, objects merge key by key |
| Render.ChooseConfig | src/generators/output/toString.js:30 | defines the working config: the caller's when `isMerged` is truthy, else the deep merge with the front matter |
| Render.MissingConfigFails | src/generators/output/toString.js:21-25 | a missing, non-object or null `options.maizzle.config` fails with `TypeError("received invalid Maizzle config: null")` before the front matter is parsed, whatever the engines |
| Render.MergedConfigIsCallers | src/generators/output/toString.js:30 | when `isMerged` is truthy, the working config is the caller's config itself |
| Render.AttributesWin | src/generators/output/toString.js:30 | in the deep merge, a scalar that the front matter sets at any key path is the value found at that path |
| Render.BaseKept | src/generators/output/toString.js:30 | a key that only the base config has keeps its base value after the deep merge |
| Render.MergeObject | src/generators/output/toString.js:30 | merging into an object yields an object whose keys are the base's keys and the keys `Object.keys` lists for the source; a base key the source lacks keeps its value, and a source entry that is not mergeable wins |
| Render.StringAttributesIndexed | src/generators/output/toString.js:30 | front matter that is a bare string adds each character under its index key, as `Object.keys` of a string lists them |
| Render.LayoutOf | src/generators/output/toString.js:31 | a truthy `config.layout` is the layout; otherwise reading `config.build.layout` throws exactly when `build` is undefined or null, and yields that value when it does not throw |
| Render.CompiledCss | src/generators/output/toString.js:37-45 | defines the CSS stage: precompiled CSS, the Tailwind config check, or the compile with its process exit |
| Render.CompiledCssChoice | src/generators/output/toString.js:37-45 | truthy precompiled CSS is used and skips the config check; without it, a null Tailwind config fails with the TypeError, and the process exits exactly when the Tailwind compile fails |
| Render.Delimiters | src/generators/output/toString.js:58-59 | defines the block delimiters from `build.nunjucks.tags` |
| Render.DelimiterDefaults | src/generators/output/toString.js:58-59 | the delimiters are `{%` and `%}` unless `build.nunjucks` and its `tags` are both truthy; then they are the interpolated `tags.blockStart` and `tags.blockEnd`, so missing tags give the text `undefined` |
| Render.FirstTemplate | src/generators/output/toString.js:61 | defines the first template: the `extends` line and the body when there is a layout, the body otherwise |
| Render.FirstTemplateShape | src/generators/output/toString.js:61 | with no layout the template is the body unchanged; with a layout, the first line is exactly `<blockStart> extends "<layout>" <blockEnd>`, then a newline, then the body |
| Render.Wrap | src/generators/output/toString.js:66 | defines one layout step: the `extends` line, then the body inside a `template` block |
| Render.Chain | src/generators/output/toString.js:64-68 | defines the layout loop with a fuel bound: `OutOfFuel` stands for the loop still running |
| Render.ChainStopsWithoutLayout | src/generators/output/toString.js:64 | when the rendered HTML declares no layout, the loop ends at once with that HTML |
| Render.ChainEndsWithoutLayout | src/generators/output/toString.js:64-68 | whenever the loop ends, its HTML declares no layout |
| Render.ChainOneLevel | src/generators/output/toString.js:64-68 | one layout declaration takes exactly one iteration: it wraps the body under an `extends` of that layout, and renders the result |
| Render.ChainFuelMonotone | src/generators/output/toString.js:64-68 | once the loop has ended within some bound, a larger bound gives the same result, so the bound does not change any result |
| Render.ChainRedeclaringDiverges | src/generators/output/toString.js:64-68 | when every render declares a layout again, the loop never ends, however large the bound |
| Render.ApplyLayouts | src/generators/output/toString.js:64-68 | the `while` loop computes the layout chain `Chain` |
| Render.Rendered | src/generators/output/toString.js:58-68 | defines the render after setup: the delimiters, the first template's render, then the layout chain |
| Render.RenderLayouts | src/generators/output/toString.js:58-68 | picks the delimiters, renders the first template, then runs the layout loop, as `Rendered` defines |
| Render.Finish | src/generators/output/toString.js:70-92 | defines the output stage: sanitize, `afterRender`, the transformers, `afterTransformers` |
| Render.Output | src/generators/output/toString.js:70-94 | sanitizes first, then runs `afterRender` if present, the transformers, then `afterTransformers` if present; any error thrown along the way ends the render, as `Finish` defines |
| Render.AfterRenderSeesSanitized | src/generators/output/toString.js:70-86 | `afterRender` is called on the sanitized HTML: two engines whose hooks agree on that input give the same outcome |
| Render.AfterRenderThrowStops | src/generators/output/toString.js:84-86 | when `afterRender` throws, the render fails with its message, whatever the transformers and `afterTransformers` do |
| Render.FinishDone | src/generators/output/toString.js:84-94 | a finished render went through `afterRender` (or took the sanitized HTML), then the transformers on what it returned, then `afterTransformers` on theirs, and its HTML is the last of these |
| Render.FinishWithoutHooks | src/generators/output/toString.js:70-94 | without the output hooks, the transformers applied to the sanitized HTML decide the outcome alone, whatever the hook fields hold |
| Render.Page | src/generators/output/toString.js:11-68 | defines the stages from the guards to the layout loop, each stopping the render at its error |
| Render.Pipeline | src/generators/output/toString.js:9-98 | defines the whole render: the page, then the output stage |
| Render.RenderPage | src/generators/output/toString.js:11-68 | runs each stage from the guards to the layout loop in source order, stopping at the first error, as `Page` defines |
| Render.RenderString | src/generators/output/toString.js:9-98 | the whole render equals `Pipeline`; `Pipeline` is the specification the Render lemmas above are about |
| Sanitizer.Sanitize | src/generators/output/toString.js:70-82 | defines the sanitizer: the head rewrite, then the body rewrite |
| Sanitizer.HeadRewrite | src/generators/output/toString.js:72-76 | defines the head rewrite as a global replace with the head pattern |
| Sanitizer.BodyRewrite | src/generators/output/toString.js:78-82 | defines the body rewrite as a global replace with the class pattern |
| Sanitizer.HeadMatchSound | src/generators/output/toString.js:72 | a head match runs from a `.` to the last `\:`, `\/` or `\%` on the same line, as the greedy `(\..+)` backtracks to |
| Sanitizer.HeadMatchComplete | src/generators/output/toString.js:72 | every way the head pattern can match at a position is found, and the match found is the longest |
| Sanitizer.HeadFixClean | src/generators/output/toString.js:72-76 | a rewritten head match holds no `\:`, `\/` or `\%`; a match without them is kept as it is |
| Sanitizer.DashEscapesFacts | src/generators/output/toString.js:74 | replacing `\:` and `\/` with `-` leaves neither escape, and text without them is kept |
| Sanitizer.DashEscapesAppend | src/generators/output/toString.js:74 | the replacement of `\:` and `\/` works piece by piece when the text is split before a backslash |
| Sanitizer.DashEscapesReplaces | src/generators/output/toString.js:74 | each `\:` and each `\/` becomes exactly one `-`, with the text around it replaced independently |
| Sanitizer.PcEscapesFacts | src/generators/output/toString.js:75 | replacing `\%` with `pc` leaves no escape at all once the dash escapes are gone, and text without `\%` is kept |
| Sanitizer.PcEscapesAppend | src/generators/output/toString.js:75 | the replacement of `\%` works piece by piece when the text is split before a backslash |
| Sanitizer.PcEscapesReplaces | src/generators/output/toString.js:75 | each `\%` becomes exactly `pc`, with the text around it replaced independently |
| Sanitizer.HeadRewriteAt | src/generators/output/toString.js:72-76 | the head rewrite copies the text before the first match, rewrites that match so that it has no escape, and goes on after it |
| Sanitizer.HeadUnchanged | src/generators/output/toString.js:72-76 | HTML in which the head pattern never matches comes out unchanged |
| Sanitizer.NoEscapeNoHeadMatch | src/generators/output/toString.js:72 | HTML without `\:`, `\/` or `\%` never matches the head pattern |
| Sanitizer.ClassMatchComplete | src/generators/output/toString.js:78 | every `class`, optional whitespace, `=`, optional whitespace, quote, then a value with a `/` or `:`, then a quote, is matched up to that closing quote |
| Sanitizer.ClassMatchSound | src/generators/output/toString.js:78 | every body match has that shape |
| Sanitizer.MatchHasSlashOrColon | src/generators/output/toString.js:78 | a body match always holds a `/` or a `:` |
| Sanitizer.PercentOnlyNotMatched | src/generators/output/toString.js:78-82 | a class attribute whose value has `%` but no `/` or `:` is not matched, and the rewrite copies the whole attribute, up to its closing quote, unchanged |
| Sanitizer.NoSlashOrColonNoMatch | src/generators/output/toString.js:78 | HTML with no `/` and no `:` never matches the body pattern |
| Sanitizer.BodyFixClean | src/generators/output/toString.js:79-81 | a rewritten class attribute holds no `/`, `:` or `%`, and one with none of them is kept |
| Sanitizer.DashSlashColonFacts | src/generators/output/toString.js:80 | each `/` and `:` becomes `-` and every other character is kept in place; no `/` or `:` is left, and no `%` is introduced |
| Sanitizer.PcPercentFacts | src/generators/output/toString.js:81 | no `%` is left, no `/` or `:` is introduced, and text without `%` is kept |
| Sanitizer.PcPercentReplaces | src/generators/output/toString.js:81 | each `%` becomes exactly `pc`, with the text around it replaced independently |
| Sanitizer.BodyRewriteAt | src/generators/output/toString.js:78-82 | the body rewrite copies the text up to the first match; inside the match it keeps the frame and cleans the value of `/`, `:` and `%`; then it continues after the closing quote |
| Sanitizer.BodyUnchangedIff | src/generators/output/toString.js:78-82 | the body rewrite leaves HTML unchanged if and only if the class pattern matches nowhere in it |
| Sanitizer.MatchChanges | src/generators/output/toString.js:78-82 | a string that begins with a match is always changed |
| Sanitizer.SanitizeNotIdempotent | src/generators/output/toString.js:70-82 | sanitizing twice can give a different string from sanitizing once |
| Sanitizer.ScanAt | src/generators/output/toString.js:70-82 | a global replace copies the text before the first match, replaces the match, and continues after it |
| Sanitizer.ScanUnchanged | src/generators/output/toString.js:70-82 | a global replace with no match anywhere is the identity |
| Plaintext.PosthtmlOptions | src/generators/plaintext.js:8 | posthtml gets `sync: true` and every entry an object spread copies from `build.posthtml.options` (an object's fields, a string's or an array's indices), and nothing else |
| Plaintext.HandleCustomTags | src/generators/plaintext.js:7-33 | defines the handler: parse with the posthtml options, walk with the tag mapping, serialize |
| Plaintext.ProcessTable | src/generators/plaintext.js:11-27 | a `plaintext` node becomes a tagless node with content `['']`; a `not-plaintext` node becomes a tagless node with its inner content rendered; every other node is returned as is |
| Plaintext.Process | src/generators/plaintext.js:11-27 | the mapped node is never a custom tag and is no larger than the original |
| Plaintext.WalkCleans | src/generators/plaintext.js:29 | after the walk, no custom tag is left anywhere in the tree |
| Plaintext.WalkKeepsClean | src/generators/plaintext.js:29 | a tree without custom tags is not changed by the walk |
| Plaintext.WalkIdempotent | src/generators/plaintext.js:29 | walking twice is the same as walking once |
| Plaintext.Walk | src/generators/plaintext.js:29 | the walk keeps the number of top-level nodes |
| Plaintext.NotPlaintextRendersOriginal | src/generators/plaintext.js:19-24 | a `not-plaintext` element is replaced by the rendering of its own, unwalked content |
| Plaintext.HandledTreeIsClean | src/generators/plaintext.js:7-33 | the tree handed to the serializer has no custom tags; when re-parsing the output gives back that tree, applying the handler twice is the same as applying it once |
| Plaintext.Extension | src/generators/plaintext.js:36 | the extension is `txt` when `destination.extension` is unset; a set string is used as it is, and any other set value as string concatenation writes it |
| Plaintext.StripOptions | src/generators/plaintext.js:38-44 | every entry the spread copies from the caller's `options` wins, and the link-href default stays unless it is overridden |
| Plaintext.StripRemovesNotPlaintext | src/generators/plaintext.js:38-44 | unless the caller's options override it, stripping removes `script`, `style`, `xml` and `not-plaintext` together with their contents |
| Plaintext.Generate | src/generators/plaintext.js:34-81 | the plaintext comes from the original HTML and the returned HTML is the tag-adjusted one; the call fails exactly when resolving the destination throws, and otherwise returns that destination |
| Plaintext.Destination | src/generators/plaintext.js:35-80 | defines the destination resolver with its three tiers |
| Plaintext.ConfiguredFileWins | src/generators/plaintext.js:49-60 | a `destination.path` that has an extension is the destination verbatim, whatever the permalink and the argument |
| Plaintext.ConfiguredDirectory | src/generators/plaintext.js:62-67 | a `destination.path` without an extension is joined with the template's stem plus `.` and the extension; a non-string `filepath` throws; the result has that stem and extension |
| Plaintext.PermalinkOverrides | src/generators/plaintext.js:74 | without `destination.path`, a set `permalink` makes the `destination` argument irrelevant |
| Plaintext.StringDestinationForm | src/generators/plaintext.js:74-78 | a string destination becomes its directory joined with its stem plus `.` and the extension |
| Plaintext.StringDestinationSwapped | src/generators/plaintext.js:76-78 | a string destination keeps its stem, and its extension becomes the plaintext extension |
| Plaintext.NonStringDestinationKept | src/generators/plaintext.js:74-80 | a non-string destination with no permalink is returned unchanged |
| Paths.ExtName | src/generators/plaintext.js:56 | defines `path.extname` for POSIX paths |
| Paths.Stem | src/generators/plaintext.js:65 | defines `path.basename(p, path.extname(p))` for POSIX paths |
| Paths.DirName | src/generators/plaintext.js:77 | defines `path.dirname` for POSIX paths |
| Paths.Normalize | src/generators/tailwindcss.js:41-42 | defines `path.normalize` for POSIX paths |
| Paths.Join | src/generators/plaintext.js:65 | defines `path.join` of two POSIX paths |
| Paths.StemAndExtension | src/generators/plaintext.js:65 | `basename(p, extname(p)) + extname(p)` is the last segment of `p`; a non-empty extension starts with the only dot in it, and the stem before it is not empty |
| Paths.NamedFile | src/generators/plaintext.js:77 | joining a directory with `stem.ext` gives a path whose `extname` is `.ext` and whose stem is `stem` |
| Paths.JoinEndsWithName | src/generators/plaintext.js:65 | joining a directory with a plain file name gives a path that ends in that name |
| Paths.SplitJoin | src/generators/plaintext.js:65 | splitting at `/` undoes joining slash-free segments |
| Paths.NormalizePlainRelative | src/generators/tailwindcss.js:41-42 | `normalize` leaves a relative path of plain segments unchanged |
| Paths.NormalizePlainAbsolute | src/generators/tailwindcss.js:41-42 | `normalize` leaves an absolute path of plain segments unchanged |
| Paths.ResolveAppend | src/generators/tailwindcss.js:41-42 | resolving `.` and `..` segments in two parts gives the same result as resolving them all at once |
| Tailwind.ChosenConfig | src/generators/tailwindcss.js:13 | defines the reassigned `tailwindConfig`: a non-empty object argument, else `build.tailwind.config` with its default file name |
| Tailwind.UserConfig | src/generators/tailwindcss.js:16-31 | defines `userConfig()` |
| Tailwind.ConfigChoice | src/generators/tailwindcss.js:13-31 | a non-empty object config is used verbatim; otherwise `build.tailwind.config` decides: unset loads `tailwind.config.js`, a string loads that path, a failed load gives `{}` in both cases, a non-empty object there is used as it is, and any other value gives `{}` |
| Tailwind.RootGlob | src/generators/tailwindcss.js:41-42 | defines a root glob: the normalized `root/**/*.html` for a string root, else the fallback |
| Tailwind.BaseFiles | src/generators/tailwindcss.js:40-44 | defines the base files: layouts glob, components glob, raw HTML entry |
| Tailwind.BaseConfig | src/generators/tailwindcss.js:37-45 | defines the base config: `important`, and `content.files` |
| Tailwind.ReAppend | src/generators/tailwindcss.js:48-56 | defines the re-append: an array `content` becomes `files` with the raw entry last |
| Tailwind.MergedConfig | src/generators/tailwindcss.js:33-56 | defines the merged config with the array content re-appended |
| Tailwind.BaseFilesKept | src/generators/tailwindcss.js:34-46 | without a user `content`, the files are the layouts glob, the components glob and the raw HTML entry, in that order; each glob defaults when its root is not a string |
| Tailwind.MergeCopies | src/generators/tailwindcss.js:37-46 | merging into nothing gives a copy of the source |
| Tailwind.MergeStrings | src/generators/tailwindcss.js:37-46 | merging a shorter array of strings overwrites the first entries and keeps the rest |
| Tailwind.MergeLonger | src/generators/tailwindcss.js:37-46 | merging a longer or equal array of strings gives that array |
| Tailwind.MergeInto | src/generators/tailwindcss.js:37-46 | merging into an object gives an object; an array merged with an array has the length of the longer |
| Tailwind.ArrayContentMerged | src/generators/tailwindcss.js:37-46 | an array `content` from the user replaces the base object |
| Tailwind.ArrayContentGetsRaw | src/generators/tailwindcss.js:48-56 | an array `content` is turned into `files`, with the raw HTML entry appended last |
| Tailwind.ObjectContentMerged | src/generators/tailwindcss.js:37-46 | the `files` of an object `content` are merged index by index with the base files, and `content` stays an object |
| Tailwind.ObjectContentIndexWise | src/generators/tailwindcss.js:37-56 | user files as strings overwrite the base entries one by one; with three or more of them the raw HTML entry is gone |
| Tailwind.FilesOf | src/generators/tailwindcss.js:70-89 | defines what `config.content.files.push` reaches, with the errors of a missing `content`, missing `files` or non-array `files` |
| Tailwind.SourceStep | src/generators/tailwindcss.js:63-87 | defines the map callback for one template |
| Tailwind.Expand | src/generators/tailwindcss.js:63-87 | defines the map over the template objects, stopping at the first throw |
| Tailwind.WithTemplates | src/generators/tailwindcss.js:58-90 | defines the template stage: the pushed entries, then the mapped ones, appended to the files |
| Tailwind.SourceStepTable | src/generators/tailwindcss.js:63-87 | a function source pushes its array's elements, or its string, or nothing, and maps to the placeholder; a string source with an extension is pushed and maps to the placeholder; any other source maps to `${source}/**/*.*` |
| Tailwind.SourceStepTableAny | src/generators/tailwindcss.js:63-87 | whatever the state of the files list, the mapped entry depends on the source alone |
| Tailwind.ExpandMapsInOrder | src/generators/tailwindcss.js:63-87 | there is one mapped entry per template, in template order |
| Tailwind.ExpandStep | src/generators/tailwindcss.js:63-87 | processing one more template adds its pushed entries and its mapping to the end, or stops at its error |
| Tailwind.ExpandStopsAtError | src/generators/tailwindcss.js:63-87 | the first template that throws ends the expansion with its error |
| Tailwind.MapTemplates | src/generators/tailwindcss.js:63-87 | the loop over the templates computes `Expand` |
| Tailwind.TemplatesAppended | src/generators/tailwindcss.js:58-90 | the final files are the merged files, then the entries pushed during the map, then the mapped entries in template order |
| Tailwind.AddTemplates | src/generators/tailwindcss.js:58-90 | adding the templates' sources computes `WithTemplates` |
| Tailwind.Spread | src/generators/tailwindcss.js:99 | defines an array spread: an array's elements, a string's characters, a TypeError otherwise |
| Tailwind.UserFilePath | src/generators/tailwindcss.js:92 | defines the user CSS path: `build.tailwind.css`, by default `src/css/tailwind.css` under the working directory |
| Tailwind.BasePlugins | src/generators/tailwindcss.js:95-100 | defines the plugin list before the import plugin |
| Tailwind.WithUserFile | src/generators/tailwindcss.js:92-109 | defines the import plugin and the CSS from the user file or the preamble |
| Tailwind.Users | src/generators/tailwindcss.js:99 | each user plugin keeps its place in the spread order |
| Tailwind.PluginOrder | src/generators/tailwindcss.js:92-109 | the plugins are nested, Tailwind with the assembled config, longhand merge (a no-op exactly when `env` is `local`), then the user plugins; the import plugin goes first exactly when the user CSS file exists; the CSS is that file followed by the input, or the preamble followed by the input |
| Tailwind.Staged | src/generators/tailwindcss.js:33-109 | defines what reaches PostCSS: the merged config, then the stages after it |
| Tailwind.StagedFrom | src/generators/tailwindcss.js:58-109 | defines the stages after the merge: templates, plugins, the user's CSS file |
| Tailwind.CompileSpec | src/generators/tailwindcss.js:12-117 | defines the compile: the staged plugins and CSS, PostCSS's check of the plugin list, then the run with its SyntaxError wrapping |
| Tailwind.Stage | src/generators/tailwindcss.js:92-109 | building the plugin list and the CSS computes `StagedFrom` |
| Tailwind.SyntaxErrorOnlyFromPostcss | src/generators/tailwindcss.js:111-116 | the compile fails with a SyntaxError exactly when the plugins and CSS are assembled, PostCSS accepts the plugin list, and the run fails; a rejected plugin list fails with PostCSS's own error, unwrapped |
| Tailwind.Compile | src/generators/tailwindcss.js:12-117 | the whole compile computes `CompileSpec`, with the plugin-list check before the run; `CompileSpec` is the specification the Tailwind lemmas above are about |
| Js.Get | src/generators/output/toString.js:31 | reading a property throws exactly on undefined and null |
| Js.OwnEntries | src/generators/output/toString.js:30 | the keys `Object.keys` lists and a spread copies: an object's fields, a string's indices with its characters, an array's indices with its elements, and none for other values |
| Js.Decimal | src/generators/output/toString.js:16 | the decimal form of an integer reads back as that integer, so distinct numbers have distinct forms |
| Js.LodashGet | src/generators/plaintext.js:35-36 | lodash `get` replaces only an undefined result with the default |

## Left out

- The external engines are function fields with no body of their own, and their results are whatever those fields return:
  - the front-matter parser;
  - the Nunjucks environment (`init`, `renderString`);
  - the four hooks;
  - `Tailwind.fromString`;
  - `Transformers.process`;
  - posthtml parsing, rendering and serialising;
  - `stripHtml`;
  - the Tailwind, nesting, import and merge-longhand plugins;
  - PostCSS: its check of the plugin list, and its run.
- Hooks that change the config in place are modelled as returning the changed config. Aliasing between the config object and the caller's options is not modelled, except for the `isMerged` case, where the caller's config is the working config.
- `marked.setOptions` is left out. It only configures a global Markdown renderer that the render does not call itself.
- `process.exit()` after a failed CSS compile becomes the `Exited` outcome. Its `console.log` of the error is left out.
- `process.cwd()`, `fs.pathExists`, `fs.readFile` and `requireUncached` are fields of `Tooling`. A failed load of the Tailwind config file is a missing result, which falls back to `{}`.
- `async`/`await` is left out. Each step runs to completion before the next, in source order.
- The `try { … } catch (error) { throw error }` in toString.js only rethrows, so it is modelled as the error passing through.
- Render.ApplyLayouts: the layout loop takes a fuel bound, and `OutOfFuel` stands for a loop that has not ended within it. The source loop is unbounded. `Render.ChainFuelMonotone` shows that the bound never changes a result that ends.
- Numbers are integers. Non-integer `length` values are not modelled.
- Js.Length: a `length` that is not a number is treated as absent. So `{length: "0"}`, which JavaScript compares as `0 < 1` and rejects with the RangeError, gets the TypeError in the model.
- Render.Deepmerge: deepmerge's clone options, prototype-pollution key filtering and custom array merge are not modelled. Arrays are concatenated and objects merged key by key, as its defaults do. A string source adds its index keys, as `Object.keys` lists them.
- Render.MergeObject: a null or undefined source, for which `Object.keys` throws, is treated as having no keys. The front-matter parser replaces a falsy YAML value with `{}`, so the render does not pass one.
- Tailwind.MergeInto: the lodash `merge` cases that only a malformed Tailwind config reaches are not modelled, and the model keeps the base value there. These are an object merged into an array, as `content: {files: {0: 'a.html'}}` gives, where lodash overwrites `files[0]`; an array merged into a plain object, as a config module that exports an array gives; array-like objects; typed arrays; inherited keys.
- Error messages are modelled where Maizzle writes them. Messages that come from the runtime are approximated by a message of the right error kind: the text of a spread over a non-iterable, and Node's `path` error for a non-string argument, whose trailing "Received …" part is dropped.
- Output HTML and CSS are strings. Default parameter values apply only to `undefined`, as in JavaScript.
- Plaintext.WalkIdempotent: it holds for the tree walk. For the whole handler it holds only when re-parsing the serialized tree gives back that tree (`Plaintext.HandledTreeIsClean`), because parsing and serialising are external.
