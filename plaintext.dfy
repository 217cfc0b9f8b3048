/** The plaintext generator: the plaintext version of a template, the HTML
    with the `<plaintext>` and `<not-plaintext>` tags resolved, and the path
    the plaintext file is written to. */
module Plaintext {
  import opened Js
  import Paths

  // ---------------------------------------------------------------------
  // The HTML tree

  /** A tag name, or `false` for a node that renders only its content. */
  datatype Tag = NoTag | Named(name: string)

  /** A node's content: none, child nodes, or HTML already rendered to a string. */
  datatype Content = Absent | Children(nodes: seq<Node>) | Rendered(html: string)

  datatype Node = Text(text: string) | Element(tag: Tag, attrs: map<string, string>, content: Content)

  /** The parser, the serializer, the renderer the tree plugin is handed, and
      the HTML-to-text stripper, as functions of their arguments. */
  datatype Markup = Markup(
    parse: (Value, string) -> seq<Node>,
    serialize: seq<Node> -> string,
    render: Content -> string,
    strip: (string, Value) -> string)

  predicate IsCustom(tag: Tag) {
    tag == Named("plaintext") || tag == Named("not-plaintext")
  }

  /** A size that the per-node callback never increases. A `plaintext`
      element counts double, because the callback swaps whatever it holds
      for one empty text node. */
  function Size(n: Node): (k: nat)
    ensures k >= 1
    decreases n, 1
  {
    match n
    case Text(_) => 1
    case Element(tag, _, c) =>
      (if tag == Named("plaintext") then 2 else 1) + (if c.Children? then SizeSeq(c.nodes) else 0)
  }

  function SizeSeq(ns: seq<Node>): nat
    decreases ns, 0
  {
    if ns == [] then 0 else Size(ns[0]) + SizeSeq(ns[1..])
  }

  /** The callback applied to every node: a `plaintext` element becomes a
      tagless node holding one empty string, a `not-plaintext` element a
      tagless node holding its content rendered to HTML, and any other node
      stays as it is. */
  function Process(m: Markup, n: Node): (r: Node)
    ensures Size(r) <= Size(n)
    ensures !(r.Element? && IsCustom(r.tag))
  {
    if n.Element? && n.tag == Named("plaintext") then
      assert SizeSeq([Text("")]) == 1;
      Element(NoTag, map[], Children([Text("")]))
    else if n.Element? && n.tag == Named("not-plaintext") then
      Element(NoTag, map[], Rendered(m.render(n.content)))
    else n
  }

  /** The tree walk goes on into a processed node's content only when that
      content is a list of nodes. */
  function Traverse(m: Markup, n: Node): Node
    decreases Size(n), 0
  {
    match n
    case Element(tag, attrs, Children(cs)) => Element(tag, attrs, Children(Walk(m, cs)))
    case _ => n
  }

  /** `tree.walk(process)`: every node is processed, then its (new) content
      is walked. */
  function Walk(m: Markup, ns: seq<Node>): (r: seq<Node>)
    ensures |r| == |ns|
    decreases SizeSeq(ns), 1
  {
    if ns == [] then []
    else [Traverse(m, Process(m, ns[0]))] + Walk(m, ns[1..])
  }

  /** No `plaintext` or `not-plaintext` element anywhere in the nodes a walk
      can reach. */
  predicate CleanNode(n: Node) {
    match n
    case Text(_) => true
    case Element(tag, _, c) =>
      !IsCustom(tag) &&
      (c.Children? ==> forall i :: 0 <= i < |c.nodes| ==> CleanNode(c.nodes[i]))
  }

  predicate Clean(ns: seq<Node>) {
    forall i :: 0 <= i < |ns| ==> CleanNode(ns[i])
  }

  /** The callback, node by node. */
  lemma ProcessTable(m: Markup, n: Node)
    ensures n.Element? && n.tag == Named("plaintext") ==>
      Process(m, n) == Element(NoTag, map[], Children([Text("")]))
    ensures n.Element? && n.tag == Named("not-plaintext") ==>
      Process(m, n) == Element(NoTag, map[], Rendered(m.render(n.content)))
    ensures !(n.Element? && IsCustom(n.tag)) ==> Process(m, n) == n
  {
  }

  /** After the walk no custom tag is left anywhere in the tree. */
  lemma {:induction false} WalkCleans(m: Markup, ns: seq<Node>)
    ensures Clean(Walk(m, ns))
    decreases SizeSeq(ns), 1
  {
    if ns != [] {
      TraverseCleans(m, Process(m, ns[0]));
      WalkCleans(m, ns[1..]);
      var r := Walk(m, ns);
      assert r == [Traverse(m, Process(m, ns[0]))] + Walk(m, ns[1..]);
      forall i | 0 <= i < |r| ensures CleanNode(r[i]) {
        if i > 0 {
          assert r[i] == Walk(m, ns[1..])[i - 1];
        }
      }
    }
  }

  lemma {:induction false} TraverseCleans(m: Markup, n: Node)
    requires !(n.Element? && IsCustom(n.tag))
    ensures CleanNode(Traverse(m, n))
    decreases Size(n), 0
  {
    match n
    case Element(tag, attrs, Children(cs)) =>
      WalkCleans(m, cs);
    case _ =>
  }

  /** A tree without custom tags comes out of the walk as it went in. */
  lemma {:induction false} WalkKeepsClean(m: Markup, ns: seq<Node>)
    requires Clean(ns)
    ensures Walk(m, ns) == ns
    decreases SizeSeq(ns), 1
  {
    if ns != [] {
      assert CleanNode(ns[0]);
      TraverseKeepsClean(m, ns[0]);
      assert Clean(ns[1..]) by {
        forall i | 0 <= i < |ns| - 1 ensures CleanNode(ns[1..][i]) {
          assert ns[1..][i] == ns[i + 1];
        }
      }
      WalkKeepsClean(m, ns[1..]);
      assert [ns[0]] + ns[1..] == ns;
    }
  }

  lemma {:induction false} TraverseKeepsClean(m: Markup, n: Node)
    requires CleanNode(n)
    ensures Traverse(m, n) == n
    decreases Size(n), 0
  {
    match n
    case Element(tag, attrs, Children(cs)) =>
      assert Clean(cs);
      WalkKeepsClean(m, cs);
    case _ =>
  }

  /** Walking twice is walking once. */
  lemma WalkIdempotent(m: Markup, ns: seq<Node>)
    ensures Walk(m, Walk(m, ns)) == Walk(m, ns)
  {
    WalkCleans(m, ns);
    WalkKeepsClean(m, Walk(m, ns));
  }

  /** The content of a `not-plaintext` element is rendered as it was parsed:
      tags inside it are not resolved. */
  lemma NotPlaintextRendersOriginal(m: Markup, attrs: map<string, string>, c: Content)
    ensures Walk(m, [Element(Named("not-plaintext"), attrs, c)]) ==
      [Element(NoTag, map[], Rendered(m.render(c)))]
  {
  }

  /** A key of an object built by spreading `a` and then `b` reads `b`'s
      value when `b` has it, else `a`'s. */
  lemma PropOfUnion(a: map<string, Value>, b: map<string, Value>)
    ensures forall k :: Prop(Obj(a + b), k) == if k in b then b[k] else if k in a then a[k] else Undefined
  {
  }

  /** posthtml's options: the configured ones with `sync` set. A spread
      copies an object's fields and a string's or an array's indices. */
  function PosthtmlOptions(config: Value): (r: Value)
    ensures Prop(r, "sync") == Bool(true)
    ensures var o := LodashGet(config, ["build", "posthtml", "options"], Obj(map[]));
      forall k :: k in OwnEntries(o) && k != "sync" ==> Prop(r, k) == OwnEntries(o)[k]
    ensures var o := LodashGet(config, ["build", "posthtml", "options"], Obj(map[]));
      forall k :: Prop(r, k) != Undefined ==> k in OwnEntries(o) || k == "sync"
  {
    var o := LodashGet(config, ["build", "posthtml", "options"], Obj(map[]));
    PropOfUnion(OwnEntries(o), map["sync" := Bool(true)]);
    Obj(OwnEntries(o) + map["sync" := Bool(true)])
  }

  /** `handleCustomTags`: parse, walk, serialize. */
  function HandleCustomTags(m: Markup, html: string, config: Value): string {
    m.serialize(Walk(m, m.parse(PosthtmlOptions(config), html)))
  }

  /** The serialized tree holds no custom tag, and a second pass over a
      reparse that gives back the same tree changes nothing. */
  lemma HandledTreeIsClean(m: Markup, html: string, config: Value)
    ensures Clean(Walk(m, m.parse(PosthtmlOptions(config), html)))
    ensures var t := Walk(m, m.parse(PosthtmlOptions(config), html));
      m.parse(PosthtmlOptions(config), HandleCustomTags(m, html, config)) == t ==>
      HandleCustomTags(m, HandleCustomTags(m, html, config), config) == HandleCustomTags(m, html, config)
  {
    var t := Walk(m, m.parse(PosthtmlOptions(config), html));
    WalkCleans(m, m.parse(PosthtmlOptions(config), html));
    WalkKeepsClean(m, t);
  }

  // ---------------------------------------------------------------------
  // The destination

  /** The stripper's options: link hrefs dumped next to links, scripts,
      styles, XML and `not-plaintext` removed with their contents, and the
      configured `options` over those. */
  function StripOptions(config: Value): (r: Value)
    ensures var o := LodashGet(config, ["options"], Obj(map[]));
      forall k :: k in OwnEntries(o) ==> Prop(r, k) == OwnEntries(o)[k]
    ensures var o := LodashGet(config, ["options"], Obj(map[]));
      "dumpLinkHrefsNearby" !in OwnEntries(o) ==>
        Prop(r, "dumpLinkHrefsNearby") == Obj(map["enabled" := Bool(true)])
  {
    var o := LodashGet(config, ["options"], Obj(map[]));
    var defaults := map[
      "dumpLinkHrefsNearby" := Obj(map["enabled" := Bool(true)]),
      "stripTogetherWithTheirContents" := Arr([Str("script"), Str("style"), Str("xml"), Str("not-plaintext")])];
    PropOfUnion(defaults, OwnEntries(o));
    Obj(defaults + OwnEntries(o))
  }

  /** Node's error for a path argument that is not a string. */
  const PathArgument := TypeError("The \"path\" argument must be of type string")

  /** The plaintext extension: `destination.extension` as string
      concatenation writes it, `txt` when unset. */
  function Extension(config: Value): (e: string)
    ensures Js.Walk(config, ["destination", "extension"]).Undefined? ==> e == "txt"
    ensures Js.Walk(config, ["destination", "extension"]).Str? ==> e == Js.Walk(config, ["destination", "extension"]).s
    ensures !Js.Walk(config, ["destination", "extension"]).Undefined? ==> e == Interp(Js.Walk(config, ["destination", "extension"]))
  {
    Interp(LodashGet(config, ["destination", "extension"], Str("txt")))
  }

  /** Where the plaintext goes: the configured path when it names a file;
      a file named after the template inside the configured path when it
      names a directory; else the permalink or the given destination with
      its extension swapped. */
  function Destination(config: Value, destination: Value): Result<Value, Error> {
    var path := LodashGet(config, ["destination", "path"], Undefined);
    var ext := Extension(config);
    if Truthy(path) then
      if !path.Str? then Err(PathArgument)
      else if Paths.ExtName(path.s) != "" then Ok(path)
      else
        var fp := Prop(config, "filepath");
        if !fp.Str? then Err(PathArgument)
        else Ok(Str(Paths.Join(path.s, Paths.Stem(fp.s) + "." + ext)))
    else
      var d := LodashGet(config, ["permalink"], destination);
      if d.Str? then Ok(Str(Paths.Join(Paths.DirName(d.s), Paths.Stem(d.s) + "." + ext))) else Ok(d)
  }

  /** What `generate` resolves to. */
  datatype Generated = Generated(html: string, plaintext: string, destination: Value)

  /** `generate`: the plaintext is stripped from the HTML as given, the
      returned HTML has its custom tags resolved, and the destination is
      chosen by precedence. */
  method Generate(m: Markup, html: string, destination: Value, config: Value) returns (r: Result<Generated, Error>)
    ensures r.Err? <==> Destination(config, destination).Err?
    ensures r.Err? ==> r.error == Destination(config, destination).error
    ensures r.Ok? ==> r.value == Generated(HandleCustomTags(m, html, config),
      m.strip(html, StripOptions(config)), Destination(config, destination).value)
  {
    var configDestinationPath := LodashGet(config, ["destination", "path"], Undefined);
    var extension := Extension(config);

    var plaintext := m.strip(html, StripOptions(config));
    var adjusted := HandleCustomTags(m, html, config);

    if Truthy(configDestinationPath) {
      if !configDestinationPath.Str? {
        return Err(PathArgument);
      }
      if Paths.ExtName(configDestinationPath.s) != "" {
        return Ok(Generated(adjusted, plaintext, configDestinationPath));
      }
      var filepath := Prop(config, "filepath");
      if !filepath.Str? {
        return Err(PathArgument);
      }
      var file := Paths.Stem(filepath.s) + "." + extension;
      return Ok(Generated(adjusted, plaintext, Str(Paths.Join(configDestinationPath.s, file))));
    }

    var dest := LodashGet(config, ["permalink"], destination);
    if dest.Str? {
      dest := Str(Paths.Join(Paths.DirName(dest.s), Paths.Stem(dest.s) + "." + extension));
    }
    return Ok(Generated(adjusted, plaintext, dest));
  }

  /** The extension: `.` plus a name without dots or slashes. */
  predicate PlainExtension(ext: string) {
    Paths.NoSlash(ext) && Paths.NoDot(ext)
  }

  /** A configured path with an extension is used verbatim, whatever the
      permalink and the given destination. */
  lemma ConfiguredFileWins(config: Value, destination: Value, p: string)
    requires LodashGet(config, ["destination", "path"], Undefined) == Str(p)
    requires Paths.ExtName(p) != ""
    ensures Destination(config, destination) == Ok(Str(p))
  {
  }

  /** A configured directory gets a file named after the template with the
      plaintext extension; without a template path that is a TypeError. */
  lemma ConfiguredDirectory(config: Value, destination: Value, dir: string)
    requires LodashGet(config, ["destination", "path"], Undefined) == Str(dir)
    requires dir != "" && Paths.ExtName(dir) == ""
    ensures !Prop(config, "filepath").Str? ==> Destination(config, destination) == Err(PathArgument)
    ensures Prop(config, "filepath").Str? ==>
      var fp := Prop(config, "filepath").s;
      Destination(config, destination) == Ok(Str(Paths.Join(dir, Paths.Stem(fp) + "." + Extension(config))))
    ensures Prop(config, "filepath").Str? && PlainExtension(Extension(config)) ==>
      var fp := Prop(config, "filepath").s;
      var stem := Paths.Stem(fp);
      stem != [] && stem + "." + Extension(config) != ".." ==>
        var d := Destination(config, destination).value.s;
        Paths.ExtName(d) == "." + Extension(config) && Paths.Stem(d) == stem
  {
    if Prop(config, "filepath").Str? && PlainExtension(Extension(config)) {
      var fp := Prop(config, "filepath").s;
      var stem := Paths.Stem(fp);
      Paths.StemAndExtension(fp);
      if stem != [] && stem + "." + Extension(config) != ".." {
        Paths.NamedFile(dir, stem, Extension(config));
      }
    }
  }

  /** Without a configured path, the permalink overrides the destination
      argument. */
  lemma PermalinkOverrides(config: Value, d1: Value, d2: Value)
    requires !Truthy(LodashGet(config, ["destination", "path"], Undefined))
    requires !Js.Walk(config, ["permalink"]).Undefined?
    ensures Destination(config, d1) == Destination(config, d2)
  {
  }

  lemma StringDestinationForm(config: Value, destination: Value, d: string)
    requires !Truthy(LodashGet(config, ["destination", "path"], Undefined))
    requires LodashGet(config, ["permalink"], destination) == Str(d)
    ensures Destination(config, destination) ==
      Ok(Str(Paths.Join(Paths.DirName(d), Paths.Stem(d) + "." + Extension(config))))
  {
  }

  /** A string destination keeps its base name and gets the plaintext
      extension, `txt` unless configured. */
  lemma StringDestinationSwapped(config: Value, destination: Value, d: string)
    requires !Truthy(LodashGet(config, ["destination", "path"], Undefined))
    requires LodashGet(config, ["permalink"], destination) == Str(d)
    requires PlainExtension(Extension(config))
    requires Paths.Stem(d) != [] && Paths.Stem(d) + "." + Extension(config) != ".."
    ensures var r := Paths.Join(Paths.DirName(d), Paths.Stem(d) + "." + Extension(config));
      Destination(config, destination) == Ok(Str(r)) &&
      Paths.ExtName(r) == "." + Extension(config) && Paths.Stem(r) == Paths.Stem(d)
  {
    StringDestinationForm(config, destination, d);
    SwappedName(Paths.DirName(d), d, Extension(config));
  }

  lemma SwappedName(dir: string, d: string, ext: string)
    requires PlainExtension(ext)
    requires Paths.Stem(d) != [] && Paths.Stem(d) + "." + ext != ".."
    ensures Paths.ExtName(Paths.Join(dir, Paths.Stem(d) + "." + ext)) == "." + ext
    ensures Paths.Stem(Paths.Join(dir, Paths.Stem(d) + "." + ext)) == Paths.Stem(d)
  {
    Paths.StemAndExtension(d);
    Paths.NamedFile(dir, Paths.Stem(d), ext);
  }

  /** A destination that is not a string, such as none at all, is passed
      through untouched. */
  lemma NonStringDestinationKept(config: Value, destination: Value)
    requires !Truthy(LodashGet(config, ["destination", "path"], Undefined))
    requires Js.Walk(config, ["permalink"]).Undefined? && !destination.Str?
    ensures Destination(config, destination) == Ok(destination)
  {
  }

  /** The stripper removes `not-plaintext` elements with their contents
      unless the configured options replace that list. */
  lemma StripRemovesNotPlaintext(config: Value)
    requires "stripTogetherWithTheirContents" !in OwnEntries(LodashGet(config, ["options"], Obj(map[])))
    ensures Prop(StripOptions(config), "stripTogetherWithTheirContents") ==
      Arr([Str("script"), Str("style"), Str("xml"), Str("not-plaintext")])
  {
  }
}
