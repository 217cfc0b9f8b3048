/** The string renderer of the build pipeline: it checks its arguments,
    picks the working config, compiles the CSS, renders the template through
    its chain of layouts, sanitizes utility class names and hands the result
    to the transformers, calling the user's hooks along the way. */
module Render {
  import opened Js
  import Sanitizer

  /** What the front-matter parser returns. */
  datatype FrontMatter = FrontMatter(attributes: Value, body: string)

  /** The collaborators the renderer calls, as functions of their arguments.
      `E` is the template environment. A hook that receives the config
      returns it as it leaves it, so that changes it makes in place are
      seen by the steps after it. A failure carries the thrown message. */
  datatype Engines<!E> = Engines(
    parse: string -> Result<FrontMatter, string>,
    afterConfig: Value -> Result<Value, string>,
    tailwind: (string, string, Value, Value) -> Result<string, string>,
    init: Value -> Result<E, string>,
    beforeRender: (E, Value) -> Result<(E, Value), string>,
    render: (E, string, Value) -> Result<string, string>,
    afterRender: (string, Value) -> Result<(string, Value), string>,
    transform: (string, Value) -> Result<string, string>,
    afterTransformers: (string, Value) -> Result<string, string>)

  /** How a render ends: with HTML, with an exception, with the process
      exiting after a CSS compile failure, or with the layout-chain loop
      still running once the fuel is spent (the source loop has no bound). */
  datatype Outcome = Done(html: string) | Failed(error: Error) | Exited | OutOfFuel

  const DefaultCss := "@tailwind components; @tailwind utilities;"

  // ---------------------------------------------------------------------
  // Argument checks

  predicate LengthBelowOne(v: Value) {
    Length(v).Some? && Length(v).value < 1
  }

  /** The two guards on the first argument, in order. */
  function Guard(str: Value): Option<Error> {
    if Truthy(str) && LengthBelowOne(str) then Some(RangeError("received empty string"))
    else if !str.Str? then Some(TypeError("first argument must be a string, received " + Interp(str)))
    else None
  }

  /** Every string passes the guards, including the empty one, and every
      other value fails: with a RangeError only when it is truthy and has a
      length below one, with a TypeError otherwise. */
  lemma GuardTable(str: Value)
    ensures Guard(str).None? <==> str.Str?
    ensures Guard(Str("")).None?
    ensures Guard(str) == Some(RangeError("received empty string")) <==>
      !str.Str? && Truthy(str) && LengthBelowOne(str)
    ensures !str.Str? && !(Truthy(str) && LengthBelowOne(str)) ==>
      Guard(str) == Some(TypeError("first argument must be a string, received " + Interp(str)))
  {
  }

  /** The RangeError is reachable, but only with values that are not
      strings: an empty array, a function without parameters. */
  lemma RangeErrorOnlyForNonStrings()
    ensures Guard(Arr([])) == Some(RangeError("received empty string"))
    ensures Guard(Fn(0, "() => {}")) == Some(RangeError("received empty string"))
    ensures Guard(Bool(false)) == Some(TypeError("first argument must be a string, received false"))
  {
    assert Interp(Bool(false)) == "false";
    assert "first argument must be a string, received " + "false" == "first argument must be a string, received false";
  }

  // ---------------------------------------------------------------------
  // Selecting from the options

  function CssOf(options: Value): string {
    var tw := Prop(options, "tailwind");
    if Truthy(options) && Truthy(tw) && Prop(tw, "css").Str? then Prop(tw, "css").s else DefaultCss
  }

  /** `options && options[key] && typeof options[key].config === 'object'`. */
  predicate ConfigGiven(options: Value, key: string) {
    Truthy(options) && Truthy(Prop(options, key)) && TypeofObject(Prop(Prop(options, key), "config"))
  }

  function TailwindConfigOf(options: Value): (r: Value)
    ensures r.Null? || r.Arr? || r.Obj?
    ensures ConfigGiven(options, "tailwind") ==> r == Prop(Prop(options, "tailwind"), "config")
    ensures !ConfigGiven(options, "tailwind") ==> r == Null
  {
    var tw := Prop(options, "tailwind");
    if Truthy(options) && Truthy(tw) && TypeofObject(Prop(tw, "config")) then Prop(tw, "config") else Null
  }

  function MaizzleConfigOf(options: Value): (r: Value)
    ensures r.Null? || r.Arr? || r.Obj?
    ensures ConfigGiven(options, "maizzle") ==> r == Prop(Prop(options, "maizzle"), "config")
    ensures !ConfigGiven(options, "maizzle") ==> r == Null
  {
    var mz := Prop(options, "maizzle");
    if Truthy(options) && Truthy(mz) && TypeofObject(Prop(mz, "config")) then Prop(mz, "config") else Null
  }

  predicate HasHook(options: Value, name: string) {
    Prop(options, name).Fn?
  }

  // ---------------------------------------------------------------------
  // The working config: the deepmerge package's default merge

  predicate Mergeable(v: Value) {
    v.Obj? || v.Arr?
  }

  /** `deepmerge(t, s)`: arrays concatenate, objects merge key by key with
      `s` winning, and a value of the other kind is replaced by `s`. */
  function Deepmerge(t: Value, s: Value): Value
    decreases s, 1
  {
    if s.Arr? != t.Arr? then s
    else if s.Arr? then Arr(t.elems + s.elems)
    else MergeObject(t, s)
  }

  /** The object case: every key of `t`, then every key `Object.keys`
      lists for `s`, which is merged into `t`'s value when both are there
      and `s`'s is mergeable. A string source contributes its indices. */
  function MergeObject(t: Value, s: Value): (r: Value)
    decreases s, 0
    ensures r.Obj?
    ensures var tf := if t.Obj? then t.fields else map[];
      r.fields.Keys == tf.Keys + OwnEntries(s).Keys
    ensures var tf := if t.Obj? then t.fields else map[];
      forall k :: k in tf && k !in OwnEntries(s) ==> r.fields[k] == tf[k]
    ensures forall k :: k in OwnEntries(s) && !Mergeable(OwnEntries(s)[k]) ==> r.fields[k] == OwnEntries(s)[k]
  {
    var tf := if t.Obj? then t.fields else map[];
    match s
    case Obj(sf) =>
      Obj(map k | k in tf.Keys + sf.Keys ::
        if k in sf then
          (if k in tf && Mergeable(sf[k]) then Deepmerge(tf[k], sf[k]) else sf[k])
        else tf[k])
    case _ => Obj(tf + OwnEntries(s))
  }

  /** Front matter that is a bare string adds its characters under index
      keys, as `Object.keys` of a string lists them. */
  lemma StringAttributesIndexed(t: Value, s: string, i: nat)
    requires t.Obj? && i < |s|
    ensures Prop(Deepmerge(t, Str(s)), Decimal(i)) == Str([s[i]])
  {
    var m := MergeObject(t, Str(s));
    StringEntries(s);
    assert m.fields[Decimal(i)] == Str([s[i]]);
  }

  /** The working config: the caller's config itself when it says it is
      merged already, else the caller's config merged with the template's
      front matter. */
  function ChooseConfig(maizzle: Value, attributes: Value): Value {
    if Truthy(Prop(maizzle, "isMerged")) then maizzle else Deepmerge(maizzle, attributes)
  }

  /** `p` leads through objects of `s` to a value that is neither an
      object, an array nor undefined. */
  predicate ScalarAt(s: Value, p: seq<string>)
    decreases |p|
  {
    if p == [] then !Mergeable(s) && !s.Undefined?
    else s.Obj? && p[0] in s.fields && ScalarAt(s.fields[p[0]], p[1..])
  }

  /** The front matter wins: wherever it sets a plain value, however deep,
      the merged config has that value. */
  lemma {:induction false} AttributesWin(t: Value, s: Value, p: seq<string>)
    requires p != [] && ScalarAt(s, p)
    ensures Walk(Deepmerge(t, s), p) == Walk(s, p)
    decreases |p|
  {
    if !t.Arr? {
      var k := p[0];
      var tf := if t.Obj? then t.fields else map[];
      var m := Deepmerge(t, s);
      assert m == MergeObject(t, s);
      assert Prop(m, k) == if k in tf && Mergeable(s.fields[k]) then Deepmerge(tf[k], s.fields[k]) else s.fields[k];
      if k in tf && Mergeable(s.fields[k]) {
        AttributesWin(tf[k], s.fields[k], p[1..]);
      }
    }
  }

  /** A key the front matter does not set keeps the caller's value. */
  lemma BaseKept(t: Value, s: Value, k: string)
    requires t.Obj? && s.Obj? && k in t.fields && k !in s.fields
    ensures Prop(Deepmerge(t, s), k) == t.fields[k]
  {
  }

  /** `isMerged` selects the caller's config unchanged. */
  lemma MergedConfigIsCallers(maizzle: Value, attributes: Value)
    requires Truthy(Prop(maizzle, "isMerged"))
    ensures ChooseConfig(maizzle, attributes) == maizzle
  {
  }

  // ---------------------------------------------------------------------
  // Layout, delimiters and the extends directive

  /** `config.layout || config.build.layout`. */
  function LayoutOf(config: Value): (r: Result<Value, Error>)
    ensures Truthy(Prop(config, "layout")) ==> r == Ok(Prop(config, "layout"))
    ensures !Truthy(Prop(config, "layout")) ==>
      (r.Err? <==> Prop(config, "build").Undefined? || Prop(config, "build").Null?)
    ensures !Truthy(Prop(config, "layout")) && r.Ok? ==> r.value == Prop(Prop(config, "build"), "layout")
  {
    var l := Prop(config, "layout");
    if Truthy(l) then Ok(l) else Get(Prop(config, "build"), "layout")
  }

  /** The block delimiters: the configured tags when `build.nunjucks.tags`
      is set, written as template literals write them. */
  function Delimiters(config: Value): Result<(string, string), Error> {
    match Get(Prop(config, "build"), "nunjucks")
    case Err(e) => Err(e)
    case Ok(nj) =>
      if Truthy(nj) && Truthy(Prop(nj, "tags")) then
        var tags := Prop(nj, "tags");
        Ok((Interp(Prop(tags, "blockStart")), Interp(Prop(tags, "blockEnd"))))
      else Ok(("{%", "%}"))
  }

  /** The defaults apply exactly when no tags are configured; configured
      tags are interpolated as they are, so tags without a `blockStart` give
      the text `undefined`. */
  lemma DelimiterDefaults(config: Value, nj: Value)
    requires Prop(config, "build").Obj? && Prop(Prop(config, "build"), "nunjucks") == nj
    ensures !(Truthy(nj) && Truthy(Prop(nj, "tags"))) ==> Delimiters(config) == Ok(("{%", "%}"))
    ensures Truthy(nj) && Truthy(Prop(nj, "tags")) ==>
      var tags := Prop(nj, "tags");
      Delimiters(config) == Ok((Interp(Prop(tags, "blockStart")), Interp(Prop(tags, "blockEnd"))))
    ensures Truthy(nj) && Prop(nj, "tags") == Obj(map["blockEnd" := Str("]]")]) ==>
      Delimiters(config) == Ok(("undefined", "]]"))
  {
  }

  function Directive(bs: string, be: string, layout: Value): string {
    bs + " extends \"" + Interp(layout) + "\" " + be
  }

  /** The first template: the body under an `extends` line when there is a
      layout, the body alone otherwise. */
  function FirstTemplate(bs: string, be: string, layout: Value, body: string): string {
    if Truthy(layout) then Directive(bs, be, layout) + "\n" + body else body
  }

  /** Without a layout the body is rendered unchanged; with one it follows a
      single line naming the layout. */
  lemma FirstTemplateShape(bs: string, be: string, layout: Value, body: string)
    requires '\n' !in bs + be + Interp(layout)
    ensures !Truthy(layout) ==> FirstTemplate(bs, be, layout, body) == body
    ensures Truthy(layout) ==>
      var t := FirstTemplate(bs, be, layout, body);
      var n := |Directive(bs, be, layout)|;
      n < |t| && t[n] == '\n' && '\n' !in t[..n] && t[n + 1..] == body &&
      t[..n] == bs + " extends \"" + Interp(layout) + "\" " + be
  {
    if Truthy(layout) {
      var d := Directive(bs, be, layout);
      var t := FirstTemplate(bs, be, layout, body);
      assert t == d + "\n" + body;
      assert t[..|d|] == d;
      assert t[|d| + 1..] == body;
      forall i | 0 <= i < |d| ensures d[i] != '\n' {
        var clean := bs + be + Interp(layout);
        if i < |bs| {
          assert d[i] == bs[i] == clean[i];
        } else if i < |bs| + 10 {
          assert d[i] == " extends \""[i - |bs|];
        } else if i < |bs| + 10 + |Interp(layout)| {
          assert d[i] == Interp(layout)[i - |bs| - 10] == clean[i - 10 + |be|];
        } else if i < |bs| + 12 + |Interp(layout)| {
          assert d[i] == "\" "[i - |bs| - 10 - |Interp(layout)|];
        } else {
          assert d[i] == be[i - |bs| - 12 - |Interp(layout)|] == clean[i - 12 - |Interp(layout)|];
        }
      }
    }
  }

  /** One step of the layout chain: the body as the `template` block of a
      template that extends the declared layout. */
  function Wrap(bs: string, be: string, layout: Value, body: string): string {
    Directive(bs, be, layout) + "\n" + bs + " block template " + be + body + bs + " endblock " + be
  }

  // ---------------------------------------------------------------------
  // The layout chain

  /** The loop: while the rendered HTML's front matter declares a layout,
      render its body as the `template` block of that layout. */
  function Chain<E>(eng: Engines<E>, env: E, ctx: Value, bs: string, be: string, html: string, fuel: nat): Outcome
    decreases fuel
  {
    match eng.parse(html)
    case Err(m) => Failed(Thrown(m))
    case Ok(front) =>
      match Get(front.attributes, "layout")
      case Err(e) => Failed(e)
      case Ok(l) =>
        if !Truthy(l) then Done(html)
        else if fuel == 0 then OutOfFuel
        else
          match eng.render(env, Wrap(bs, be, l, front.body), ctx)
          case Err(m) => Failed(Thrown(m))
          case Ok(h) => Chain(eng, env, ctx, bs, be, h, fuel - 1)
  }

  /** The HTML `html` declares no layout in its front matter. */
  predicate NoLayout<E>(eng: Engines<E>, html: string) {
    eng.parse(html).Ok? && Get(eng.parse(html).value.attributes, "layout").Ok? &&
    !Truthy(Get(eng.parse(html).value.attributes, "layout").value)
  }

  /** The loop stops at once on HTML without a layout... */
  lemma ChainStopsWithoutLayout<E>(eng: Engines<E>, env: E, ctx: Value, bs: string, be: string, html: string, fuel: nat)
    requires NoLayout(eng, html)
    ensures Chain(eng, env, ctx, bs, be, html, fuel) == Done(html)
  {
  }

  /** ...and it only ever ends with HTML without a layout. */
  lemma {:induction false} ChainEndsWithoutLayout<E>(eng: Engines<E>, env: E, ctx: Value, bs: string, be: string, html: string, fuel: nat)
    requires Chain(eng, env, ctx, bs, be, html, fuel).Done?
    ensures NoLayout(eng, Chain(eng, env, ctx, bs, be, html, fuel).html)
    decreases fuel
  {
    var front := eng.parse(html).value;
    var l := Get(front.attributes, "layout").value;
    if Truthy(l) {
      var h := eng.render(env, Wrap(bs, be, l, front.body), ctx).value;
      ChainEndsWithoutLayout(eng, env, ctx, bs, be, h, fuel - 1);
    }
  }

  /** More fuel changes nothing once a run has ended. */
  lemma {:induction false} ChainFuelMonotone<E>(eng: Engines<E>, env: E, ctx: Value, bs: string, be: string, html: string, fuel: nat, more: nat)
    requires fuel <= more
    requires !Chain(eng, env, ctx, bs, be, html, fuel).OutOfFuel?
    ensures Chain(eng, env, ctx, bs, be, html, more) == Chain(eng, env, ctx, bs, be, html, fuel)
    decreases fuel
  {
    match eng.parse(html)
    case Err(_) =>
    case Ok(front) =>
      match Get(front.attributes, "layout")
      case Err(_) =>
      case Ok(l) =>
        if Truthy(l) {
          match eng.render(env, Wrap(bs, be, l, front.body), ctx)
          case Err(_) =>
          case Ok(h) => ChainFuelMonotone(eng, env, ctx, bs, be, h, fuel - 1, more - 1);
        }
  }

  /** Rendering `t` succeeds and declares a layout again. */
  predicate Redeclares<E>(eng: Engines<E>, env: E, ctx: Value, t: string) {
    eng.render(env, t, ctx).Ok? && eng.parse(eng.render(env, t, ctx).value).Ok? &&
    Get(eng.parse(eng.render(env, t, ctx).value).value.attributes, "layout").Ok? &&
    Truthy(Get(eng.parse(eng.render(env, t, ctx).value).value.attributes, "layout").value)
  }

  /** Every render declares a layout again. */
  ghost predicate AlwaysRedeclares<E>(eng: Engines<E>, env: E, ctx: Value) {
    forall t :: Redeclares(eng, env, ctx, t)
  }

  /** A layout that always declares a layout makes the source loop run
      forever: no amount of fuel finishes it. */
  lemma {:induction false} ChainRedeclaringDiverges<E>(eng: Engines<E>, env: E, ctx: Value, bs: string, be: string, t: string, fuel: nat)
    requires AlwaysRedeclares(eng, env, ctx)
    ensures eng.render(env, t, ctx).Ok? && Chain(eng, env, ctx, bs, be, eng.render(env, t, ctx).value, fuel) == OutOfFuel
    decreases fuel
  {
    assert Redeclares(eng, env, ctx, t);
    var html := eng.render(env, t, ctx).value;
    var front := eng.parse(html).value;
    var l := Get(front.attributes, "layout").value;
    if fuel > 0 {
      var w := Wrap(bs, be, l, front.body);
      assert Redeclares(eng, env, ctx, w);
      ChainRedeclaringDiverges(eng, env, ctx, bs, be, w, fuel - 1);
    }
  }

  /** A layout that declares no layout of its own costs exactly one more
      render. */
  lemma ChainOneLevel<E>(eng: Engines<E>, env: E, ctx: Value, bs: string, be: string, html: string, l: Value, body: string, h: string)
    requires eng.parse(html) == Ok(FrontMatter(Obj(map["layout" := l]), body)) && Truthy(l)
    requires eng.render(env, Wrap(bs, be, l, body), ctx) == Ok(h) && NoLayout(eng, h)
    ensures Chain(eng, env, ctx, bs, be, html, 0) == OutOfFuel
    ensures Chain(eng, env, ctx, bs, be, html, 1) == Done(h)
  {
    ChainStopsWithoutLayout(eng, env, ctx, bs, be, h, 0);
  }

  // ---------------------------------------------------------------------
  // The stages

  /** `options.tailwind.compiled || ...`: precompiled CSS is used as it is;
      otherwise a Tailwind config is required and the CSS is compiled from
      the template body, a compile failure ending the process. */
  function CompiledCss<E>(eng: Engines<E>, options: Value, css: string, html: string, twConfig: Value, maizzle: Value): Result<Value, Outcome> {
    match Get(Prop(options, "tailwind"), "compiled")
    case Err(e) => Err(Failed(e))
    case Ok(c) =>
      if Truthy(c) then Ok(c)
      else if !Truthy(twConfig) then Err(Failed(TypeError("received invalid Tailwind CSS config: " + Interp(twConfig))))
      else
        match eng.tailwind(css, html, twConfig, maizzle)
        case Err(_) => Err(Exited)
        case Ok(s) => Ok(Str(s))
  }

  /** Precompiled CSS skips the Tailwind config check; without it a missing
      config is a TypeError and a failed compile ends the process. */
  lemma CompiledCssChoice<E>(eng: Engines<E>, options: Value, css: string, html: string, maizzle: Value)
    requires Truthy(Prop(options, "tailwind"))
    ensures var tw := TailwindConfigOf(options);
      var c := Prop(Prop(options, "tailwind"), "compiled");
      var r := CompiledCss(eng, options, css, html, tw, maizzle);
      (Truthy(c) ==> r == Ok(c)) &&
      (r == Err(Failed(TypeError("received invalid Tailwind CSS config: null"))) <==> !Truthy(c) && tw.Null?) &&
      (r == Err(Exited) <==> !Truthy(c) && !tw.Null? && eng.tailwind(css, html, tw, maizzle).Err?)
  {
    assert Interp(Null) == "null";
    assert "received invalid Tailwind CSS config: " + "null" == "received invalid Tailwind CSS config: null";
  }

  /** The template context: the config as `page`, the caller's `env` and the CSS. */
  function Context(config: Value, options: Value, css: Value): Value {
    Obj(map["page" := config, "env" := Prop(options, "env"), "css" := css])
  }

  function AfterConfig<E>(eng: Engines<E>, options: Value, config: Value): Result<Value, Error> {
    if HasHook(options, "afterConfig") then
      match eng.afterConfig(config)
      case Err(m) => Err(Thrown(m))
      case Ok(c) => Ok(c)
    else Ok(config)
  }

  function BeforeRender<E>(eng: Engines<E>, options: Value, env: E, config: Value): Result<(E, Value), Error> {
    if HasHook(options, "beforeRender") then
      match eng.beforeRender(env, config)
      case Err(m) => Err(Thrown(m))
      case Ok(p) => Ok(p)
    else Ok((env, config))
  }

  /** After the layout chain: sanitize, then `afterRender`, the
      transformers and `afterTransformers`, in that order. */
  function Finish<E>(eng: Engines<E>, options: Value, config: Value, html: string): Outcome {
    var clean := Sanitizer.Sanitize(html);
    var rendered :=
      if HasHook(options, "afterRender") then eng.afterRender(clean, config) else Ok((clean, config));
    match rendered
    case Err(m) => Failed(Thrown(m))
    case Ok((h, c)) =>
      match eng.transform(h, c)
      case Err(m) => Failed(Thrown(m))
      case Ok(t) =>
        if HasHook(options, "afterTransformers") then
          match eng.afterTransformers(t, c)
          case Err(m) => Failed(Thrown(m))
          case Ok(a) => Done(a)
        else Done(t)
  }

  /** The whole render: the page, then the output stage. */
  function Pipeline<E>(str: Value, options: Value, eng: Engines<E>, fuel: nat): Outcome {
    match Page(str, options, eng, fuel)
    case Err(o) => o
    case Ok((html, config)) => Finish(eng, options, config, html)
  }

  /** The render up to the end of the layout chain, stage by stage: the
      page's HTML and the config as the hooks leave it, or how the render
      ended early. */
  function Page<E>(str: Value, options: Value, eng: Engines<E>, fuel: nat): Result<(string, Value), Outcome> {
    match Guard(str)
    case Some(e) => Err(Failed(e))
    case None =>
      var maizzle := MaizzleConfigOf(options);
      if !Truthy(maizzle) then Err(Failed(TypeError("received invalid Maizzle config: " + Interp(maizzle))))
      else
        match eng.parse(str.s)
        case Err(m) => Err(Failed(Thrown(m)))
        case Ok(front) =>
          var config := ChooseConfig(maizzle, front.attributes);
          match LayoutOf(config)
          case Err(e) => Err(Failed(e))
          case Ok(layout) =>
            match AfterConfig(eng, options, config)
            case Err(e) => Err(Failed(e))
            case Ok(config1) =>
              // with `isMerged` the config is the caller's object itself
              var maizzle1 := if Truthy(Prop(maizzle, "isMerged")) then config1 else maizzle;
              match CompiledCss(eng, options, CssOf(options), front.body, TailwindConfigOf(options), maizzle1)
              case Err(o) => Err(o)
              case Ok(compiled) =>
                match Get(Prop(config1, "build"), "nunjucks")
                case Err(e) => Err(Failed(e))
                case Ok(nj) =>
                  match eng.init(nj)
                  case Err(m) => Err(Failed(Thrown(m)))
                  case Ok(env0) =>
                    match BeforeRender(eng, options, env0, config1)
                    case Err(e) => Err(Failed(e))
                    case Ok((env, config2)) =>
                      match Rendered(options, eng, env, config2, compiled, front.body, layout, fuel)
                      case Done(h) => Ok((h, config2))
                      case other => Err(other)
  }

  /** The render once the template environment is set up: the first
      template, then the layout chain. */
  function Rendered<E>(options: Value, eng: Engines<E>, env: E, config: Value, compiled: Value, body: string,
                       layout: Value, fuel: nat): Outcome {
    match Delimiters(config)
    case Err(e) => Failed(e)
    case Ok((bs, be)) =>
      var ctx := Context(config, options, compiled);
      match eng.render(env, FirstTemplate(bs, be, layout, body), ctx)
      case Err(m) => Failed(Thrown(m))
      case Ok(h) => Chain(eng, env, ctx, bs, be, h, fuel)
  }

  /** A first argument that is not a string fails the guards whatever the
      options and the engines. */
  lemma NonStringFails<E>(str: Value, options: Value, eng: Engines<E>, fuel: nat)
    requires !str.Str?
    ensures Pipeline(str, options, eng, fuel) == Failed(Guard(str).value)
    ensures Guard(str).value.TypeError? || (Truthy(str) && LengthBelowOne(str))
  {
  }

  /** A missing or non-object `options.maizzle.config` fails before the
      front matter is parsed. */
  lemma MissingConfigFails<E>(s: string, options: Value, eng: Engines<E>, fuel: nat)
    requires var c := Prop(Prop(options, "maizzle"), "config"); !TypeofObject(c) || c.Null?
    ensures Pipeline(Str(s), options, eng, fuel) == Failed(TypeError("received invalid Maizzle config: null"))
  {
    assert Guard(Str(s)).None?;
    assert MaizzleConfigOf(options) == Null;
    assert Interp(Null) == "null";
    assert "received invalid Maizzle config: " + "null" == "received invalid Maizzle config: null";
  }

  // ---------------------------------------------------------------------
  // The output stage

  /** What `afterRender` returns, or the sanitized HTML and the config
      when there is no such hook. */
  function AfterRendered<E>(eng: Engines<E>, options: Value, config: Value, html: string): Result<(string, Value), string> {
    var clean := Sanitizer.Sanitize(html);
    if HasHook(options, "afterRender") then eng.afterRender(clean, config) else Ok((clean, config))
  }

  /** `afterRender` is called on the sanitized HTML: its results on any
      other HTML play no part in the outcome. */
  lemma AfterRenderSeesSanitized<E>(eng: Engines<E>, ar: (string, Value) -> Result<(string, Value), string>,
                                    options: Value, config: Value, html: string)
    requires ar(Sanitizer.Sanitize(html), config) == eng.afterRender(Sanitizer.Sanitize(html), config)
    ensures Finish(eng.(afterRender := ar), options, config, html) == Finish(eng, options, config, html)
  {
  }

  /** When `afterRender` throws, the render fails with its message, whatever
      the transformers and `afterTransformers` would do. */
  lemma AfterRenderThrowStops<E>(eng: Engines<E>, tr: (string, Value) -> Result<string, string>,
                                 at: (string, Value) -> Result<string, string>,
                                 options: Value, config: Value, html: string)
    requires HasHook(options, "afterRender")
    requires eng.afterRender(Sanitizer.Sanitize(html), config).Err?
    ensures var m := eng.afterRender(Sanitizer.Sanitize(html), config).error;
      Finish(eng, options, config, html) == Failed(Thrown(m)) &&
      Finish(eng.(transform := tr, afterTransformers := at), options, config, html) == Failed(Thrown(m))
  {
  }

  /** A finished render went through every stage in order: `afterRender`
      (or the sanitized HTML), then the transformers on what it returned,
      then `afterTransformers` on theirs. */
  lemma FinishDone<E>(eng: Engines<E>, options: Value, config: Value, html: string)
    requires Finish(eng, options, config, html).Done?
    ensures var r := AfterRendered(eng, options, config, html);
      r.Ok? && eng.transform(r.value.0, r.value.1).Ok? &&
      var t := eng.transform(r.value.0, r.value.1).value;
      (HasHook(options, "afterTransformers") ==>
        eng.afterTransformers(t, r.value.1).Ok? &&
        Finish(eng, options, config, html).html == eng.afterTransformers(t, r.value.1).value) &&
      (!HasHook(options, "afterTransformers") ==> Finish(eng, options, config, html).html == t)
  {
  }

  /** Without the two output hooks, the transformers on the sanitized HTML
      decide the outcome alone, whatever the hook fields hold. */
  lemma FinishWithoutHooks<E>(eng: Engines<E>, ar: (string, Value) -> Result<(string, Value), string>,
                              at: (string, Value) -> Result<string, string>,
                              options: Value, config: Value, html: string)
    requires !HasHook(options, "afterRender") && !HasHook(options, "afterTransformers")
    ensures var t := eng.transform(Sanitizer.Sanitize(html), config);
      Finish(eng, options, config, html) == (if t.Ok? then Done(t.value) else Failed(Thrown(t.error))) &&
      Finish(eng.(afterRender := ar, afterTransformers := at), options, config, html) ==
        Finish(eng, options, config, html)
  {
  }

  // ---------------------------------------------------------------------
  // The renderer, step by step

  method RenderString<E>(str: Value, options: Value, eng: Engines<E>, fuel: nat) returns (out: Outcome)
    ensures out == Pipeline(str, options, eng, fuel)
  {
    var page := RenderPage(str, options, eng, fuel);
    if page.Err? {
      return page.error;
    }
    out := Output(eng, options, page.value.1, page.value.0);
  }

  /** Everything up to the end of the layout chain. */
  method RenderPage<E>(str: Value, options: Value, eng: Engines<E>, fuel: nat)
    returns (r: Result<(string, Value), Outcome>)
    ensures r == Page(str, options, eng, fuel)
  {
    var guard := Guard(str);
    if guard.Some? {
      return Err(Failed(guard.value));
    }
    var maizzle := MaizzleConfigOf(options);
    if !Truthy(maizzle) {
      return Err(Failed(TypeError("received invalid Maizzle config: " + Interp(maizzle))));
    }

    var parsed := eng.parse(str.s);
    if parsed.Err? {
      return Err(Failed(Thrown(parsed.error)));
    }
    var front := parsed.value;
    var html := front.body;

    var config := ChooseConfig(maizzle, front.attributes);
    var layout := LayoutOf(config);
    if layout.Err? {
      return Err(Failed(layout.error));
    }

    var hooked := AfterConfig(eng, options, config);
    if hooked.Err? {
      return Err(Failed(hooked.error));
    }
    config := hooked.value;
    if Truthy(Prop(maizzle, "isMerged")) {
      maizzle := config;
    }
    var compiled := CompiledCss(eng, options, CssOf(options), html, TailwindConfigOf(options), maizzle);
    if compiled.Err? {
      return Err(compiled.error);
    }
    var nj := Get(Prop(config, "build"), "nunjucks");
    if nj.Err? {
      return Err(Failed(nj.error));
    }
    var init := eng.init(nj.value);
    if init.Err? {
      return Err(Failed(Thrown(init.error)));
    }
    var before := BeforeRender(eng, options, init.value, config);
    if before.Err? {
      return Err(Failed(before.error));
    }
    var config2 := before.value.1;
    var chained := RenderLayouts(options, eng, before.value.0, config2, compiled.value, html, layout.value, fuel);
    r := if chained.Done? then Ok((chained.html, config2)) else Err(chained);
  }

  /** The first template and the layout chain. */
  method RenderLayouts<E>(options: Value, eng: Engines<E>, env: E, config: Value, compiled: Value, body: string,
                          layout: Value, fuel: nat) returns (out: Outcome)
    ensures out == Rendered(options, eng, env, config, compiled, body, layout, fuel)
  {
    var html := body;
    var delims := Delimiters(config);
    if delims.Err? {
      return Failed(delims.error);
    }
    var bs, be := delims.value.0, delims.value.1;

    html := FirstTemplate(bs, be, layout, html);
    var ctx := Context(config, options, compiled);
    var rendered := eng.render(env, html, ctx);
    if rendered.Err? {
      return Failed(Thrown(rendered.error));
    }
    html := rendered.value;

    out := ApplyLayouts(eng, env, ctx, bs, be, html, fuel);
  }

  /** Sanitize, then `afterRender`, the transformers and `afterTransformers`. */
  method Output<E>(eng: Engines<E>, options: Value, config: Value, html: string) returns (out: Outcome)
    ensures out == Finish(eng, options, config, html)
  {
    var clean := Sanitizer.Sanitize(html);
    var rendered :=
      if HasHook(options, "afterRender") then eng.afterRender(clean, config) else Ok((clean, config));
    if rendered.Err? {
      return Failed(Thrown(rendered.error));
    }
    var (h, c) := rendered.value;
    var transformed := eng.transform(h, c);
    if transformed.Err? {
      return Failed(Thrown(transformed.error));
    }
    out := Done(transformed.value);
    if HasHook(options, "afterTransformers") {
      var after := eng.afterTransformers(transformed.value, c);
      out := if after.Err? then Failed(Thrown(after.error)) else Done(after.value);
    }
  }

  /** The layout loop: while the rendered HTML's front matter declares a
      layout, wrap the body in it and render again, at most `fuel` times. */
  method ApplyLayouts<E>(eng: Engines<E>, env: E, ctx: Value, bs: string, be: string, start: string, fuel: nat)
    returns (out: Outcome)
    ensures out == Chain(eng, env, ctx, bs, be, start, fuel)
  {
    var html := start;
    var left := fuel;
    while true
      invariant Chain(eng, env, ctx, bs, be, html, left) == Chain(eng, env, ctx, bs, be, start, fuel)
      decreases left
    {
      var fm := eng.parse(html);
      if fm.Err? {
        return Failed(Thrown(fm.error));
      }
      var declared := Get(fm.value.attributes, "layout");
      if declared.Err? {
        return Failed(declared.error);
      }
      if !Truthy(declared.value) {
        break;
      }
      if left == 0 {
        return OutOfFuel;
      }
      html := Wrap(bs, be, declared.value, fm.value.body);
      var next := eng.render(env, html, ctx);
      if next.Err? {
        return Failed(Thrown(next.error));
      }
      html := next.value;
      left := left - 1;
    }
    return Done(html);
  }
}
