/** The Tailwind CSS compile step: the Tailwind config, its list of content
    files to scan, the PostCSS plugin list and the CSS fed to PostCSS. */
module Tailwind {
  import opened Js
  import Paths

  /** A PostCSS plugin, as far as the plugin list tells them apart. */
  datatype Plugin =
    | Import(dir: string)
    | Nested
    | TailwindPlugin(config: Value)
    | MergeLonghand
    | Noop
    | User(plugin: Value)

  /** The file system, the module loader, calls into template source
      functions, and PostCSS, as functions of their arguments. `load` is
      `requireUncached(path.resolve(cwd, p))`, `None` when that throws.
      PostCSS works in two steps: `accept` is the check `postcss(plugins)`
      makes of its plugin list when it is called, giving the message it
      throws for a plugin it rejects; `postcss` is the `process` run that
      produces the CSS or rejects. */
  datatype Tooling = Tooling(
    cwd: string,
    load: (string, string) -> Option<Value>,
    call: (Value, Value) -> Result<Value, string>,
    present: Value -> bool,
    read: string -> Result<string, string>,
    accept: seq<Plugin> -> Option<string>,
    postcss: (seq<Plugin>, string) -> Result<string, string>)

  const DefaultConfigPath := "tailwind.config.js"
  const Preamble := "@tailwind components; @tailwind utilities; "

  /** Node's error for a path argument that is not a string. */
  const PathArgument := TypeError("The \"path\" argument must be of type string")

  function RawEntry(html: string): Value {
    Obj(map["raw" := Str(html), "extension" := Str("html")])
  }

  const Placeholder: Value := Obj(map["raw" := Str(""), "extension" := Str("html")])

  /** A default parameter: it replaces `undefined` only. */
  function OrEmpty(v: Value): Value {
    if v.Undefined? then Obj(map[]) else v
  }

  // ---------------------------------------------------------------------
  // lodash `merge`

  /** `merge(o, s)`: the keys of `s` merged into the object or array `o`.
      A plain value of `s` replaces `o`'s unless it is `undefined` and `o`
      has the key; arrays and plain objects merge recursively, arrays index
      by index. */
  function MergeInto(o: Value, s: Value): (r: Value)
    decreases s, 2
    ensures o.Obj? ==> r.Obj?
    ensures o.Arr? && s.Arr? ==> r.Arr? && |r.elems| == if |s.elems| > |o.elems| then |s.elems| else |o.elems|
  {
    match s
    case Obj(sf) =>
      if o.Arr? then o
      else
        var of := if o.Obj? then o.fields else map[];
        Obj(map k | k in of.Keys + sf.Keys ::
          if k in sf then MergeKey(k in of, if k in of then of[k] else Undefined, sf[k]) else of[k])
    case Arr(se) =>
      if o.Arr? then Arr(MergeElems(o.elems, se)) else o
    case _ => o
  }

  function MergeElems(oe: seq<Value>, se: seq<Value>): (r: seq<Value>)
    decreases se, 1
    ensures |r| == if |se| > |oe| then |se| else |oe|
  {
    if se == [] then oe
    else
      [MergeKey(oe != [], if oe != [] then oe[0] else Undefined, se[0])] +
      MergeElems(if oe != [] then oe[1..] else [], se[1..])
  }

  /** The new value of one key: `present` says whether the target has it,
      `o` is its value there. */
  function MergeKey(present: bool, o: Value, s: Value): Value
    decreases s, 3
  {
    match s
    case Arr(_) => MergeInto(if o.Arr? then o else Arr([]), s)
    case Obj(_) => MergeInto(if o.Obj? || o.Arr? then o else Obj(map[]), s)
    case Undefined => if present then o else Undefined
    case _ => s
  }

  /** Merging into nothing copies: the key's new value is the source's. */
  lemma {:induction false} MergeCopies(s: Value)
    ensures MergeKey(false, Undefined, s) == s
    decreases s, 1
  {
    match s
    case Arr(se) =>
      MergeElemsCopies(se);
    case Obj(sf) =>
      var r := MergeInto(Obj(map[]), s);
      forall k | k in sf ensures MergeKey(false, Undefined, sf[k]) == sf[k] {
        MergeCopies(sf[k]);
      }
      assert r.fields == sf;
    case _ =>
  }

  lemma {:induction false} MergeElemsCopies(se: seq<Value>)
    ensures MergeElems([], se) == se
    decreases se, 0
  {
    if se != [] {
      MergeCopies(se[0]);
      MergeElemsCopies(se[1..]);
      assert [se[0]] + se[1..] == se;
    }
  }

  /** Index by index: where both arrays hold strings, the source wins and
      the target's tail survives. */
  lemma {:induction false} MergeStrings(oe: seq<Value>, se: seq<Value>)
    requires forall i :: 0 <= i < |se| ==> se[i].Str?
    requires |se| <= |oe|
    ensures MergeElems(oe, se) == se + oe[|se|..]
    decreases |se|
  {
    if se != [] {
      assert forall i :: 0 <= i < |se[1..]| ==> se[1..][i].Str? by {
        forall i | 0 <= i < |se[1..]| ensures se[1..][i].Str? {
          assert se[1..][i] == se[i + 1];
        }
      }
      MergeStrings(oe[1..], se[1..]);
      MergeStringStep(oe, se);
      assert se[1..] + oe[1..][|se| - 1..] == se[1..] + oe[|se|..];
      assert [se[0]] + (se[1..] + oe[|se|..]) == se + oe[|se|..];
    }
  }

  /** One step of an index-wise merge where the source element is a string. */
  lemma MergeStringStep(oe: seq<Value>, se: seq<Value>)
    requires se != [] && oe != [] && se[0].Str?
    ensures MergeElems(oe, se) == [se[0]] + MergeElems(oe[1..], se[1..])
  {
    assert MergeKey(true, oe[0], se[0]) == se[0];
  }

  // ---------------------------------------------------------------------
  // The Tailwind config

  /** `tailwindConfig` after its first reassignment: the argument when it is
      a non-empty object, else `build.tailwind.config`, by default the file
      name `tailwind.config.js`. */
  function ChosenConfig(tc: Value, maizzle: Value): Value {
    if IsObject(tc) && !IsEmpty(tc) then tc
    else LodashGet(maizzle, ["build", "tailwind", "config"], Str(DefaultConfigPath))
  }

  /** `userConfig()`: a non-empty object as it is, else what the file loads,
      an empty object when loading fails. */
  function UserConfig(t: Tooling, chosen: Value): Value {
    if IsObject(chosen) && !IsEmpty(chosen) then chosen
    else if chosen.Str? then
      match t.load(t.cwd, chosen.s)
      case Some(v) => v
      case None => Obj(map[])
    else Obj(map[])
  }

  lemma ConfigChoice(t: Tooling, tc: Value, maizzle: Value)
    ensures IsObject(tc) && !IsEmpty(tc) ==> UserConfig(t, ChosenConfig(tc, maizzle)) == tc
    ensures !(IsObject(tc) && !IsEmpty(tc)) && Js.Walk(maizzle, ["build", "tailwind", "config"]).Undefined? ==>
      UserConfig(t, ChosenConfig(tc, maizzle)) ==
        (if t.load(t.cwd, DefaultConfigPath).Some? then t.load(t.cwd, DefaultConfigPath).value else Obj(map[]))
    ensures var c := Js.Walk(maizzle, ["build", "tailwind", "config"]);
      !(IsObject(tc) && !IsEmpty(tc)) && c.Str? ==>
      UserConfig(t, ChosenConfig(tc, maizzle)) ==
        (if t.load(t.cwd, c.s).Some? then t.load(t.cwd, c.s).value else Obj(map[]))
    ensures var c := Js.Walk(maizzle, ["build", "tailwind", "config"]);
      !(IsObject(tc) && !IsEmpty(tc)) && IsObject(c) && !IsEmpty(c) ==>
      UserConfig(t, ChosenConfig(tc, maizzle)) == c
    ensures var c := Js.Walk(maizzle, ["build", "tailwind", "config"]);
      !(IsObject(tc) && !IsEmpty(tc)) && !c.Undefined? && !c.Str? && !(IsObject(c) && !IsEmpty(c)) ==>
      UserConfig(t, ChosenConfig(tc, maizzle)) == Obj(map[])
  {
  }

  function RootGlob(root: Value, fallback: string): Value {
    if root.Str? then Str(Paths.Normalize(root.s + "/**/*.html")) else Str(fallback)
  }

  /** The base `content.files`: layouts, components, then the HTML itself. */
  function BaseFiles(html: string, maizzle: Value): seq<Value> {
    [RootGlob(LodashGet(maizzle, ["build", "layouts", "root"], Undefined), "./src/layouts/**/*.html"),
     RootGlob(LodashGet(maizzle, ["build", "components", "root"], Undefined), "./src/components/**/*.html"),
     RawEntry(html)]
  }

  function BaseConfig(html: string, maizzle: Value): Value {
    Obj(map["important" := Bool(true), "content" := Obj(map["files" := Arr(BaseFiles(html, maizzle))])])
  }

  /** With an array `content`, it becomes `{files: [...content, raw]}`. */
  function ReAppend(config: Value, html: string): Value {
    match config
    case Obj(f) =>
      var c := Prop(config, "content");
      if c.Arr? then Obj(f["content" := Obj(map["files" := Arr(c.elems + [RawEntry(html)])])]) else config
    case _ => config
  }

  /** The config after the merge and the re-append. */
  function MergedConfig(t: Tooling, tc: Value, html: string, maizzle: Value): Value {
    ReAppend(MergeInto(BaseConfig(html, maizzle), UserConfig(t, ChosenConfig(tc, maizzle))), html)
  }

  function Files(config: Value): Value {
    Prop(Prop(config, "content"), "files")
  }

  /** Without user content the files are the base ones, in their order. */
  lemma BaseFilesKept(t: Tooling, tc: Value, html: string, maizzle: Value)
    requires var u := UserConfig(t, ChosenConfig(tc, maizzle)); u.Obj? && "content" !in u.fields
    ensures Files(MergedConfig(t, tc, html, maizzle)) == Arr(BaseFiles(html, maizzle))
    ensures BaseFiles(html, maizzle)[2] == RawEntry(html)
    ensures !Js.Walk(maizzle, ["build", "layouts", "root"]).Str? ==>
      BaseFiles(html, maizzle)[0] == Str("./src/layouts/**/*.html")
    ensures !Js.Walk(maizzle, ["build", "components", "root"]).Str? ==>
      BaseFiles(html, maizzle)[1] == Str("./src/components/**/*.html")
  {
    var u := UserConfig(t, ChosenConfig(tc, maizzle));
    var m := MergeInto(BaseConfig(html, maizzle), u);
    assert Prop(m, "content") == Prop(BaseConfig(html, maizzle), "content");
  }

  lemma ArrayContentMerged(base: Value, u: Value, es: seq<Value>)
    requires base.Obj? && Prop(base, "content").Obj? && u.Obj? && Prop(u, "content") == Arr(es)
    ensures Prop(MergeInto(base, u), "content") == Arr(es)
  {
    MergeCopies(Arr(es));
    MergeElemsCopies(es);
  }

  /** User content given as an array keeps its entries, and the HTML is
      added as the last one. */
  lemma ArrayContentGetsRaw(t: Tooling, tc: Value, html: string, maizzle: Value, es: seq<Value>)
    requires var u := UserConfig(t, ChosenConfig(tc, maizzle)); u.Obj? && Prop(u, "content") == Arr(es)
    ensures Files(MergedConfig(t, tc, html, maizzle)) == Arr(es + [RawEntry(html)])
  {
    var u := UserConfig(t, ChosenConfig(tc, maizzle));
    ArrayContentMerged(BaseConfig(html, maizzle), u, es);
  }

  lemma ObjectContentMerged(base: Value, u: Value, bf: seq<Value>, us: seq<Value>)
    requires base.Obj? && Prop(base, "content") == Obj(map["files" := Arr(bf)])
    requires u.Obj? && Prop(u, "content") == Obj(map["files" := Arr(us)])
    ensures Files(MergeInto(base, u)) == Arr(MergeElems(bf, us))
    ensures !Prop(MergeInto(base, u), "content").Arr?
  {
    var bc := Obj(map["files" := Arr(bf)]);
    var uc := Obj(map["files" := Arr(us)]);
    assert "content" in base.fields && "content" in u.fields;
    var m := MergeInto(base, u);
    assert m.fields["content"] == MergeKey(true, bc, uc);
    var c := MergeInto(bc, uc);
    assert c.fields["files"] == MergeKey(true, Arr(bf), Arr(us));
    assert MergeKey(true, Arr(bf), Arr(us)) == Arr(MergeElems(bf, us));
  }

  /** User `content.files` given as strings in an object overwrite the base
      entries index by index: with three or more, the HTML entry is gone. */
  lemma ObjectContentIndexWise(t: Tooling, tc: Value, html: string, maizzle: Value, us: seq<Value>)
    requires var u := UserConfig(t, ChosenConfig(tc, maizzle));
      u.Obj? && Prop(u, "content") == Obj(map["files" := Arr(us)])
    requires forall i :: 0 <= i < |us| ==> us[i].Str?
    ensures |us| <= 3 ==> Files(MergedConfig(t, tc, html, maizzle)) == Arr(us + BaseFiles(html, maizzle)[|us|..])
    ensures |us| >= 3 ==> Files(MergedConfig(t, tc, html, maizzle)) == Arr(us)
  {
    var bf := BaseFiles(html, maizzle);
    var u := UserConfig(t, ChosenConfig(tc, maizzle));
    ObjectContentMerged(BaseConfig(html, maizzle), u, bf, us);
    if |us| <= 3 {
      MergeStrings(bf, us);
    } else {
      MergeLonger(bf, us);
    }
  }

  /** A longer array of strings replaces a shorter one entirely. */
  lemma {:induction false} MergeLonger(oe: seq<Value>, se: seq<Value>)
    requires forall i :: 0 <= i < |se| ==> se[i].Str?
    requires |oe| <= |se|
    ensures MergeElems(oe, se) == se
    decreases |se|
  {
    if se != [] {
      if oe == [] {
        MergeElemsCopies(se);
      } else {
        MergeLonger(oe[1..], se[1..]);
      }
      assert se == [se[0]] + se[1..];
    }
  }

  // ---------------------------------------------------------------------
  // Template sources

  /** What `config.content.files.push` reaches: the files, or the error a
      push raises when they are not an array. */
  function FilesOf(config: Value): Result<seq<Value>, Error> {
    var content := Prop(config, "content");
    if content.Undefined? || content.Null? then
      Err(TypeError("Cannot read properties of " + Interp(content) + " (reading 'files')"))
    else
      var files := Prop(content, "files");
      if files.Undefined? || files.Null? then
        Err(TypeError("Cannot read properties of " + Interp(files) + " (reading 'push')"))
      else if !files.Arr? then Err(TypeError("config.content.files.push is not a function"))
      else Ok(files.elems)
  }

  function SetFiles(config: Value, files: seq<Value>): Value {
    match config
    case Obj(f) =>
      var content := Prop(config, "content");
      if content.Obj? then Obj(f["content" := Obj(content.fields["files" := Arr(files)])]) else config
    case _ => config
  }

  function TemplateObjects(bt: Value): seq<Value> {
    if bt.Arr? then bt.elems else [bt]
  }

  /** The entry a template maps to. */
  function MappedEntry(source: Value): Value {
    if source.Fn? || (source.Str? && Paths.ExtName(source.s) != "") then Placeholder
    else Str(Interp(source) + "/**/*.*")
  }

  /** One template: the entries it pushes and the entry it maps to. A source
      function is called with the Maizzle config; a push fails when the
      files are not an array. */
  function SourceStep(t: Tooling, maizzle: Value, template: Value, canPush: Result<seq<Value>, Error>): Result<(seq<Value>, Value), Error> {
    var source := LodashGet(template, ["source"], Undefined);
    if source.Fn? then
      match t.call(source, maizzle)
      case Err(m) => Err(Thrown(m))
      case Ok(v) =>
        var pushes := if v.Arr? then v.elems else if v.Str? then [v] else [];
        if pushes != [] && canPush.Err? then Err(canPush.error) else Ok((pushes, Placeholder))
    else if source.Str? && Paths.ExtName(source.s) != "" then
      if canPush.Err? then Err(canPush.error) else Ok(([source], Placeholder))
    else Ok(([], Str(Interp(source) + "/**/*.*")))
  }

  /** Each source kind: a function pushes the elements of an array result,
      a string result, or nothing; a file path is pushed; all of these map
      to the placeholder, and any other source to a directory glob. */
  lemma SourceStepTable(t: Tooling, maizzle: Value, template: Value, files: seq<Value>)
    ensures var source := LodashGet(template, ["source"], Undefined);
      var r := SourceStep(t, maizzle, template, Ok(files));
      (r.Ok? ==> r.value.1 == MappedEntry(source)) &&
      (source.Fn? && t.call(source, maizzle).Ok? ==>
        var v := t.call(source, maizzle).value;
        r == Ok((if v.Arr? then v.elems else if v.Str? then [v] else [], Placeholder))) &&
      (source.Str? && Paths.ExtName(source.s) != "" ==> r == Ok(([source], Placeholder))) &&
      (!source.Fn? && !(source.Str? && Paths.ExtName(source.s) != "") ==>
        r == Ok(([], Str(Interp(source) + "/**/*.*"))))
  {
  }

  datatype Expansion = Expansion(pushed: seq<Value>, mapped: seq<Value>)

  /** The map over the templates, in order. */
  function Expand(t: Tooling, maizzle: Value, ts: seq<Value>, canPush: Result<seq<Value>, Error>): Result<Expansion, Error>
    decreases |ts|
  {
    if ts == [] then Ok(Expansion([], []))
    else
      match Expand(t, maizzle, ts[..|ts| - 1], canPush)
      case Err(e) => Err(e)
      case Ok(x) =>
        match SourceStep(t, maizzle, ts[|ts| - 1], canPush)
        case Err(e) => Err(e)
        case Ok((p, m)) => Ok(Expansion(x.pushed + p, x.mapped + [m]))
  }

  /** The mapped entries follow the templates one to one, in order. */
  lemma {:induction false} ExpandMapsInOrder(t: Tooling, maizzle: Value, ts: seq<Value>, canPush: Result<seq<Value>, Error>)
    requires Expand(t, maizzle, ts, canPush).Ok?
    ensures var x := Expand(t, maizzle, ts, canPush).value;
      |x.mapped| == |ts| &&
      forall i :: 0 <= i < |ts| ==> x.mapped[i] == MappedEntry(LodashGet(ts[i], ["source"], Undefined))
    decreases |ts|
  {
    if ts != [] {
      var init := ts[..|ts| - 1];
      ExpandMapsInOrder(t, maizzle, init, canPush);
      SourceStepTableAny(t, maizzle, ts[|ts| - 1], canPush);
      var x := Expand(t, maizzle, ts, canPush).value;
      var y := Expand(t, maizzle, init, canPush).value;
      forall i | 0 <= i < |ts| ensures x.mapped[i] == MappedEntry(LodashGet(ts[i], ["source"], Undefined)) {
        if i < |ts| - 1 {
          assert x.mapped[i] == y.mapped[i] && ts[i] == init[i];
        }
      }
    }
  }

  lemma SourceStepTableAny(t: Tooling, maizzle: Value, template: Value, canPush: Result<seq<Value>, Error>)
    ensures var r := SourceStep(t, maizzle, template, canPush);
      r.Ok? ==> r.value.1 == MappedEntry(LodashGet(template, ["source"], Undefined))
  {
  }

  /** With `build.templates` set, the pushed entries and then the mapped
      ones are appended to the files. */
  function WithTemplates(t: Tooling, config: Value, maizzle: Value): Result<Value, Error> {
    var bt := LodashGet(maizzle, ["build", "templates"], Undefined);
    if !Truthy(bt) then Ok(config)
    else
      var canPush := FilesOf(config);
      match Expand(t, maizzle, TemplateObjects(bt), canPush)
      case Err(e) => Err(e)
      case Ok(x) =>
        match canPush
        case Err(e) => Err(e)
        case Ok(files) => Ok(SetFiles(config, files + x.pushed + x.mapped))
  }

  /** The files end with what the sources pushed, then one entry per
      template in template order; nothing before them moves. */
  lemma TemplatesAppended(t: Tooling, config: Value, maizzle: Value)
    requires WithTemplates(t, config, maizzle).Ok?
    requires Truthy(LodashGet(maizzle, ["build", "templates"], Undefined))
    ensures var ts := TemplateObjects(LodashGet(maizzle, ["build", "templates"], Undefined));
      var x := Expand(t, maizzle, ts, FilesOf(config)).value;
      FilesOf(config).Ok? &&
      Files(WithTemplates(t, config, maizzle).value) == Arr(FilesOf(config).value + x.pushed + x.mapped) &&
      |x.mapped| == |ts| &&
      forall i :: 0 <= i < |ts| ==> x.mapped[i] == MappedEntry(LodashGet(ts[i], ["source"], Undefined))
  {
    var ts := TemplateObjects(LodashGet(maizzle, ["build", "templates"], Undefined));
    ExpandMapsInOrder(t, maizzle, ts, FilesOf(config));
  }

  // ---------------------------------------------------------------------
  // Plugins and CSS

  /** `...value` in an array literal: arrays and strings are iterable. */
  function Spread(v: Value): Result<seq<Value>, Error> {
    if v.Arr? then Ok(v.elems)
    else if v.Str? then Ok(seq(|v.s|, i requires 0 <= i < |v.s| => Str([v.s[i]])))
    else Err(TypeError(Interp(v) + " is not iterable"))
  }

  function Users(ps: seq<Value>): (r: seq<Plugin>)
    ensures |r| == |ps| && forall i :: 0 <= i < |ps| ==> r[i] == User(ps[i])
  {
    seq(|ps|, i requires 0 <= i < |ps| => User(ps[i]))
  }

  /** `toProcess` before the unshift. */
  function BasePlugins(config: Value, maizzle: Value): Result<seq<Plugin>, Error> {
    match Get(maizzle, "env")
    case Err(e) => Err(e)
    case Ok(env) =>
      match Spread(LodashGet(maizzle, ["build", "postcss", "plugins"], Arr([])))
      case Err(e) => Err(e)
      case Ok(user) =>
        Ok([Nested, TailwindPlugin(config), if env == Str("local") then Noop else MergeLonghand] + Users(user))
  }

  function UserFilePath(t: Tooling, maizzle: Value): Value {
    LodashGet(maizzle, ["build", "tailwind", "css"], Str(Paths.Join(t.cwd, "src/css/tailwind.css")))
  }

  /** The user's CSS file, when it exists, is read in front of the CSS and
      gets the import plugin at the front; otherwise the CSS gets the
      Tailwind preamble. */
  function WithUserFile(t: Tooling, css: string, plugins: seq<Plugin>, file: Value): Result<(seq<Plugin>, string), Error> {
    if t.present(file) then
      if !file.Str? then Err(PathArgument)
      else
        match t.read(file.s)
        case Err(m) => Err(Thrown(m))
        case Ok(text) => Ok(([Import(Paths.DirName(file.s))] + plugins, text + css))
    else Ok((plugins, Preamble + css))
  }

  /** The plugin order: nested, Tailwind with the final config, longhand merging
      (a no-op for the `local` environment), then the user's plugins; the
      import plugin goes first exactly when the user's CSS file exists. */
  lemma PluginOrder(t: Tooling, css: string, config: Value, maizzle: Value, file: Value)
    requires BasePlugins(config, maizzle).Ok?
    requires WithUserFile(t, css, BasePlugins(config, maizzle).value, file).Ok?
    ensures var base := BasePlugins(config, maizzle).value;
      var (ps, out) := WithUserFile(t, css, base, file).value;
      var k := if t.present(file) then 1 else 0;
      |base| >= 3 && |ps| == k + |base| &&
      ps[k] == Nested && ps[k + 1] == TailwindPlugin(config) &&
      (ps[k + 2] == Noop <==> Prop(maizzle, "env") == Str("local")) &&
      (ps[k + 2] != Noop ==> ps[k + 2] == MergeLonghand) &&
      ps[k + 3..] == Users(Spread(LodashGet(maizzle, ["build", "postcss", "plugins"], Arr([]))).value) &&
      (t.present(file) <==> ps[0].Import?) &&
      (t.present(file) ==> ps[0] == Import(Paths.DirName(file.s)) && out == t.read(file.s).value + css) &&
      (!t.present(file) ==> out == Preamble + css)
  {
  }

  // ---------------------------------------------------------------------
  // The whole compile

  /** What reaches PostCSS: the plugins and the CSS, or the error thrown on
      the way. */
  function Staged(t: Tooling, css: string, html: string, tailwindConfig: Value, maizzleConfig: Value): Result<(seq<Plugin>, string), Error> {
    var maizzle := OrEmpty(maizzleConfig);
    StagedFrom(t, css, MergedConfig(t, OrEmpty(tailwindConfig), html, maizzle), maizzle)
  }

  /** The stages after the merge: templates, plugins, the user's CSS file. */
  function StagedFrom(t: Tooling, css: string, config: Value, maizzle: Value): Result<(seq<Plugin>, string), Error> {
    match WithTemplates(t, config, maizzle)
    case Err(e) => Err(e)
    case Ok(config2) =>
      match BasePlugins(config2, maizzle)
      case Err(e) => Err(e)
      case Ok(ps) => WithUserFile(t, css, ps, UserFilePath(t, maizzle))
  }

  /** `compile`: PostCSS run on the staged plugins and CSS. A plugin list
      that PostCSS rejects throws before the `.catch` is attached, so that
      error is not wrapped; a failure of the run becomes a SyntaxError. */
  function CompileSpec(t: Tooling, css: string, html: string, tailwindConfig: Value, maizzleConfig: Value): Result<string, Error> {
    match Staged(t, css, html, tailwindConfig, maizzleConfig)
    case Err(e) => Err(e)
    case Ok((plugins, source)) =>
      match t.accept(plugins)
      case Some(m) => Err(Thrown(m))
      case None =>
        match t.postcss(plugins, source)
        case Err(m) => Err(SyntaxError(m))
        case Ok(out) => Ok(out)
  }

  predicate NotSyntax<T>(r: Result<T, Error>) {
    r.Err? ==> !r.error.SyntaxError?
  }

  lemma FilesOfNotSyntax(config: Value)
    ensures NotSyntax(FilesOf(config))
  {
  }

  lemma {:induction false} ExpandNotSyntax(t: Tooling, maizzle: Value, ts: seq<Value>, canPush: Result<seq<Value>, Error>)
    requires NotSyntax(canPush)
    ensures NotSyntax(Expand(t, maizzle, ts, canPush))
    decreases |ts|
  {
    if ts != [] {
      ExpandNotSyntax(t, maizzle, ts[..|ts| - 1], canPush);
    }
  }

  lemma WithTemplatesNotSyntax(t: Tooling, config: Value, maizzle: Value)
    ensures NotSyntax(WithTemplates(t, config, maizzle))
  {
    FilesOfNotSyntax(config);
    ExpandNotSyntax(t, maizzle, TemplateObjects(LodashGet(maizzle, ["build", "templates"], Undefined)), FilesOf(config));
  }

  lemma StagedFromNotSyntax(t: Tooling, css: string, config: Value, maizzle: Value)
    ensures NotSyntax(StagedFrom(t, css, config, maizzle))
  {
    WithTemplatesNotSyntax(t, config, maizzle);
  }

  lemma StagedNotSyntax(t: Tooling, css: string, html: string, tailwindConfig: Value, maizzleConfig: Value)
    ensures NotSyntax(Staged(t, css, html, tailwindConfig, maizzleConfig))
  {
    var maizzle := OrEmpty(maizzleConfig);
    StagedFromNotSyntax(t, css, MergedConfig(t, OrEmpty(tailwindConfig), html, maizzle), maizzle);
  }

  /** A SyntaxError comes from the PostCSS run and from nowhere else; a
      rejected plugin list fails with PostCSS's own error, unwrapped. */
  lemma SyntaxErrorOnlyFromPostcss(t: Tooling, css: string, html: string, tailwindConfig: Value, maizzleConfig: Value)
    ensures var r := CompileSpec(t, css, html, tailwindConfig, maizzleConfig);
      var s := Staged(t, css, html, tailwindConfig, maizzleConfig);
      r.Err? && r.error.SyntaxError? <==>
        s.Ok? && t.accept(s.value.0).None? && t.postcss(s.value.0, s.value.1).Err?
    ensures var r := CompileSpec(t, css, html, tailwindConfig, maizzleConfig);
      var s := Staged(t, css, html, tailwindConfig, maizzleConfig);
      s.Ok? && t.accept(s.value.0).Some? ==> r == Err(Thrown(t.accept(s.value.0).value))
  {
    StagedNotSyntax(t, css, html, tailwindConfig, maizzleConfig);
  }

  // ---------------------------------------------------------------------
  // The compile, step by step

  /** Once a template fails, the whole map fails with its error. */
  lemma {:induction false} ExpandStopsAtError(t: Tooling, maizzle: Value, ts: seq<Value>, i: nat, canPush: Result<seq<Value>, Error>)
    requires i <= |ts|
    requires Expand(t, maizzle, ts[..i], canPush).Err?
    ensures Expand(t, maizzle, ts, canPush) == Expand(t, maizzle, ts[..i], canPush)
    decreases |ts| - i
  {
    if i < |ts| {
      assert ts[..i + 1][..i] == ts[..i];
      ExpandStopsAtError(t, maizzle, ts, i + 1, canPush);
    } else {
      assert ts[..i] == ts;
    }
  }

  /** One more template extends the map by that template's step. */
  lemma ExpandStep(t: Tooling, maizzle: Value, ts: seq<Value>, i: nat, canPush: Result<seq<Value>, Error>, x: Expansion)
    requires i < |ts|
    requires Expand(t, maizzle, ts[..i], canPush) == Ok(x)
    ensures var step := SourceStep(t, maizzle, ts[i], canPush);
      Expand(t, maizzle, ts[..i + 1], canPush) ==
        if step.Err? then Err(step.error) else Ok(Expansion(x.pushed + step.value.0, x.mapped + [step.value.1]))
  {
    assert ts[..i + 1][..i] == ts[..i];
  }

  /** The map over the templates: what each source pushes, in order, and
      the entries they map to. */
  method MapTemplates(t: Tooling, maizzle: Value, templates: seq<Value>, canPush: Result<seq<Value>, Error>)
    returns (r: Result<Expansion, Error>)
    ensures r == Expand(t, maizzle, templates, canPush)
  {
    var pushed: seq<Value> := [];
    var mapped: seq<Value> := [];
    var i := 0;
    while i < |templates|
      invariant 0 <= i <= |templates|
      invariant Expand(t, maizzle, templates[..i], canPush) == Ok(Expansion(pushed, mapped))
    {
      var step := SourceStep(t, maizzle, templates[i], canPush);
      ExpandStep(t, maizzle, templates, i, canPush, Expansion(pushed, mapped));
      if step.Err? {
        ExpandStopsAtError(t, maizzle, templates, i + 1, canPush);
        return Err(step.error);
      }
      pushed := pushed + step.value.0;
      mapped := mapped + [step.value.1];
      i := i + 1;
    }
    assert templates[..|templates|] == templates;
    return Ok(Expansion(pushed, mapped));
  }

  /** `build.templates`, when set, expands into the content files: pushed
      entries first, then the mapped ones. */
  method AddTemplates(t: Tooling, config: Value, maizzle: Value) returns (r: Result<Value, Error>)
    ensures r == WithTemplates(t, config, maizzle)
  {
    var buildTemplates := LodashGet(maizzle, ["build", "templates"], Undefined);
    if !Truthy(buildTemplates) {
      return Ok(config);
    }
    var canPush := FilesOf(config);
    var expansion := MapTemplates(t, maizzle, TemplateObjects(buildTemplates), canPush);
    if expansion.Err? {
      return Err(expansion.error);
    }
    if canPush.Err? {
      return Err(canPush.error);
    }
    var files := canPush.value;
    files := files + expansion.value.pushed;
    files := files + expansion.value.mapped;
    return Ok(SetFiles(config, files));
  }

  /** `compile`: build the config, stage the plugins and the CSS, and run
      PostCSS; a rejected plugin list throws as it is, a failed run becomes
      a SyntaxError. */
  method Compile(t: Tooling, css: string, html: string, tailwindConfig: Value, maizzleConfig: Value) returns (r: Result<string, Error>)
    ensures r == CompileSpec(t, css, html, tailwindConfig, maizzleConfig)
  {
    var maizzle := OrEmpty(maizzleConfig);
    var chosen := ChosenConfig(OrEmpty(tailwindConfig), maizzle);
    var config := MergeInto(BaseConfig(html, maizzle), UserConfig(t, chosen));
    config := ReAppend(config, html);
    var staged := Stage(t, css, config, maizzle);
    if staged.Err? {
      return Err(staged.error);
    }
    var rejected := t.accept(staged.value.0);
    if rejected.Some? {
      return Err(Thrown(rejected.value));
    }
    var result := t.postcss(staged.value.0, staged.value.1);
    if result.Err? {
      return Err(SyntaxError(result.error));
    }
    return Ok(result.value);
  }

  /** The templates, then the plugin list and the CSS: the import plugin is
      unshifted and the user's CSS read in front when the file exists. */
  method Stage(t: Tooling, css: string, config: Value, maizzle: Value) returns (r: Result<(seq<Plugin>, string), Error>)
    ensures r == StagedFrom(t, css, config, maizzle)
  {
    var withTemplates := AddTemplates(t, config, maizzle);
    if withTemplates.Err? {
      return Err(withTemplates.error);
    }
    var plugins := BasePlugins(withTemplates.value, maizzle);
    if plugins.Err? {
      return Err(plugins.error);
    }
    var toProcess := plugins.value;
    var source := css;
    var userFilePath := UserFilePath(t, maizzle);
    if t.present(userFilePath) {
      if !userFilePath.Str? {
        return Err(PathArgument);
      }
      var text := t.read(userFilePath.s);
      if text.Err? {
        return Err(Thrown(text.error));
      }
      source := text.value + source;
      toProcess := [Import(Paths.DirName(userFilePath.s))] + toProcess;
    } else {
      source := Preamble + source;
    }
    return Ok((toProcess, source));
  }
}
