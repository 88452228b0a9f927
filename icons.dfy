/** The deterministic parts of the Elementor icons manager: Font Awesome asset
    URLs, the built-in icon library tabs and the picker configuration, the
    default glyph markup and the render dispatch, and the editor settings flag
    raised while the Font Awesome 4 to 5 migration is pending. */
module Icons {
  import opened PhpArrays

  /** A tab's `render_callback`: an opaque handle to host code and whether PHP's
      `is_callable` accepts it. */
  datatype RenderCallback = RenderCallback(id: nat, callable: bool)

  /** One icon library tab (one entry of the tab registry). Keys a tab does not
      set are None. */
  datatype Tab = Tab(
    name: string,
    title: string,        // the `label` key
    url: Option<string>,
    enqueue: Option<seq<string>>,
    prefix: Option<string>,
    displayPrefix: Option<string>,
    labelIcon: string,
    ver: Option<string>,
    fetchJson: Option<string>,
    renderCallback: Option<RenderCallback>)

  /** An icon's `value`: a glyph class string for font libraries, or the
      `['id' => …]` array of an uploaded SVG. */
  datatype IconValue = Glyph(cls: string) | SvgAsset(id: Option<string>)

  /** An icon as the page builder stores it; `library` is None when unset. */
  datatype Icon = Icon(library: Option<string>, value: IconValue)

  /** An HTML attribute value: a string or a list of strings. */
  datatype AttrValue = Text(s: string) | List(items: seq<string>)

  /** One entry of the editor settings array. */
  datatype Setting = Flag(on: bool) | Other(id: nat)

  /** A stylesheet or script handed to the host's asset queue. */
  datatype Asset = Script(handle: string, url: string, ver: string) | Style(handle: string, url: string, ver: string)

  /** The host the manager runs in: its constants (None when not defined), the
      filters other plugins hook in, and host code this model does not look into. */
  datatype Env = Env(
    assetsUrl: string,
    version: string,
    scriptDebug: Option<bool>,
    elementorTests: Option<bool>,
    nativeTabs: Dict<Tab> -> Dict<Tab>,
    additionalTabs: Dict<Tab>,
    migrationAllowed: bool -> bool,
    invokeCallback: (nat, Icon, Dict<AttrValue>, string) -> string,
    renderAttributes: Dict<AttrValue> -> string,
    inlineSvg: string -> string)

  predicate StartsWith(s: string, prefix: string) {
    |prefix| <= |s| && s[..|prefix|] == prefix
  }

  predicate EndsWith(s: string, suffix: string) {
    |suffix| <= |s| && s[|s| - |suffix|..] == suffix
  }

  /** PHP's `empty()` on a string: "" and "0" are empty. */
  predicate EmptyString(s: string) {
    s == "" || s == "0"
  }

  // ---------------------------------------------------------------- asset URLs

  const FontAwesomeDir := "lib/font-awesome/"

  /** SCRIPT_DEBUG or ELEMENTOR_TESTS, each only when defined. */
  function TestMode(env: Env): (on: bool)
    ensures env.scriptDebug.None? && env.elementorTests.None? ==> !on
    ensures env.scriptDebug == Some(true) || env.elementorTests == Some(true) ==> on
    ensures on ==> env.scriptDebug == Some(true) || env.elementorTests == Some(true)
  {
    env.scriptDebug == Some(true) || env.elementorTests == Some(true)
  }

  /** The directory part of an asset URL, up to and including the slash before the file name. */
  function AssetDir(assetsUrl: string, ext: string): string {
    assetsUrl + FontAwesomeDir + ext + "/"
  }

  /** The URL of a Font Awesome asset: the file name in the directory named
      after the extension, ".min" before the extension when minified. */
  function AssetUrl(assetsUrl: string, filename: string, ext: string, minified: bool): (url: string)
    ensures StartsWith(url, AssetDir(assetsUrl, ext) + filename)
    ensures EndsWith(url, (if minified then ".min" else "") + "." + ext)
    ensures |url| == |AssetDir(assetsUrl, ext)| + |filename| + (if minified then 4 else 0) + 1 + |ext|
  {
    var stem := AssetDir(assetsUrl, ext) + filename;
    (if minified then stem + ".min" else stem) + "." + ext
  }

  /** Recovers the file name (with ".min" when present) from an asset URL. */
  function AssetStem(assetsUrl: string, ext: string, url: string): Option<string> {
    var dir := AssetDir(assetsUrl, ext);
    if StartsWith(url, dir) && |dir| + |ext| + 1 <= |url| && EndsWith(url, "." + ext)
    then Some(url[|dir|..|url| - |ext| - 1])
    else None
  }

  /** Asset URLs can be read back: the file name comes out of the URL again,
      followed by ".min" exactly when the URL was minified. */
  lemma AssetUrlRoundTrip(assetsUrl: string, filename: string, ext: string, minified: bool)
    ensures AssetStem(assetsUrl, ext, AssetUrl(assetsUrl, filename, ext, minified))
            == Some(filename + (if minified then ".min" else ""))
  {
    var url := AssetUrl(assetsUrl, filename, ext, minified);
    var dir := AssetDir(assetsUrl, ext);
    var m := if minified then ".min" else "";
    assert url == dir + (filename + m) + ("." + ext);
    assert url[|dir|..|url| - |ext| - 1] == filename + m;
  }

  /** ".min." + ext ends the URL exactly when it was minified, unless the file
      name itself already ends in ".min". */
  lemma AssetUrlMinified(assetsUrl: string, filename: string, ext: string, minified: bool)
    requires !EndsWith(filename, ".min")
    ensures EndsWith(AssetUrl(assetsUrl, filename, ext, minified), ".min." + ext) <==> minified
  {
    var url := AssetUrl(assetsUrl, filename, ext, minified);
    var dir := AssetDir(assetsUrl, ext);
    if !minified && |url| >= |ext| + 5 {
      assert url == dir + filename + ("." + ext);
      var start := |url| - |ext| - 5;
      var window := url[start..start + 4];
      if |filename| >= 4 {
        assert window == filename[|filename| - 4..];
      } else {
        // the window reaches back to the slash that ends the directory
        assert window[|dir| - 1 - start] == url[|dir| - 1] == '/';
      }
      assert window != ".min";
      assert url[start..] == window + ("." + ext);
    }
  }

  // ---------------------------------------------------------------- tab registry

  function FontAwesomeTab(assetsUrl: string, minify: bool, style: string, title: string, displayPrefix: string, labelIcon: string): Tab {
    Tab(
      name := style,
      title := title,
      url := Some(AssetUrl(assetsUrl, style, "css", minify)),
      enqueue := Some([AssetUrl(assetsUrl, "fontawesome", "css", minify)]),
      prefix := Some("fa-"),
      displayPrefix := Some(displayPrefix),
      labelIcon := labelIcon,
      ver := Some("5.9.0"),
      fetchJson := Some(AssetUrl(assetsUrl, style, "json", false)),
      renderCallback := None)
  }

  /** The native tabs before the `native` filter: Font Awesome 5.9.0 regular,
      solid and brands, each keyed by its own name. */
  function BaseTabs(assetsUrl: string, minify: bool): (tabs: Dict<Tab>)
    ensures Keys(tabs) == ["regular", "solid", "brands"]
    ensures forall i :: 0 <= i < |tabs| ==>
      var (key, tab) := tabs[i];
      && tab.name == key
      && tab.prefix == Some("fa-")
      && tab.ver == Some("5.9.0")
      && tab.url == Some(AssetUrl(assetsUrl, key, "css", minify))
      && tab.enqueue == Some([AssetUrl(assetsUrl, "fontawesome", "css", minify)])
      && tab.fetchJson == Some(AssetUrl(assetsUrl, key, "json", false))
      && tab.renderCallback.None?
  {
    [ ("regular", FontAwesomeTab(assetsUrl, minify, "regular", "Font Awesome - Regular", "far", "fab fa-font-awesome-flag")),
      ("solid", FontAwesomeTab(assetsUrl, minify, "solid", "Font Awesome - Solid", "fas", "fab fa-font-awesome-alt")),
      ("brands", FontAwesomeTab(assetsUrl, minify, "brands", "Font Awesome - Brands", "fab", "fab fa-font-awesome")) ]
  }

  /** The tab registry after the `native` filter, as the host's constants make it. */
  function NativeTabs(env: Env): (tabs: Dict<Tab>)
    ensures (forall t :: env.nativeTabs(t) == t) ==> Keys(tabs) == ["regular", "solid", "brands"]
  {
    env.nativeTabs(BaseTabs(env.assetsUrl, !TestMode(env)))
  }

  /** The synthetic "all icons" entry of the picker. */
  const AllTab := Tab("all", "All Icons", None, None, None, None, "eicon-filter", None, None, None)

  lemma ValuesOfConcat<V>(x: seq<(string, V)>, y: seq<(string, V)>)
    ensures Values(x + y) == Values(x) + Values(y)
  {
  }

  /** The icon picker's list of tabs: `all` merged with the registry, keys
      dropped. It starts with the `all` entry (the registry's own `all` tab when
      it has one, at that first position), followed by every other tab in
      registry order, each once. */
  function TabsConfig(tabs: Dict<Tab>): (config: seq<Tab>)
    ensures |config| == if "all" in Keys(tabs) then |tabs| else |tabs| + 1
    ensures config[0] == Get(tabs, "all").GetOr(AllTab)
    ensures config[1..] == Values(Excluding(tabs, ["all"]))
  {
    var head: Dict<Tab> := [("all", AllTab)];
    MergeIsOverlayThenAppend(head, tabs);
    assert Keys(head) == ["all"];
    var first := ("all", Get(tabs, "all").GetOr(AllTab));
    assert Overlay(head, tabs) == [first];
    ValuesOfConcat([first], Excluding(tabs, ["all"]));
    ExcludingOneKeySize(tabs, "all");
    Values(Merge(head, tabs))
  }

  // ---------------------------------------------------------------- rendering

  /** `render_svg_icon`: the inline SVG of the attachment, "" when the value
      carries no `id`. */
  function SvgIcon(value: IconValue, inlineSvg: string -> string): (html: string)
    ensures value.SvgAsset? && value.id.Some? ==> html == inlineSvg(value.id.value)
    ensures !(value.SvgAsset? && value.id.Some?) ==> html == ""
  {
    match value
    case SvgAsset(Some(id)) => inlineSvg(id)
    case _ => ""
  }

  /** The class text a font icon contributes; an array value reads as PHP's "Array". */
  function GlyphText(value: IconValue): (cls: string)
    ensures value.Glyph? ==> cls == value.cls
    ensures value.SvgAsset? ==> cls == "Array"
  {
    match value
    case Glyph(cls) => cls
    case SvgAsset(_) => "Array"
  }

  /** PHP's `empty()` on an attribute value. */
  predicate EmptyAttr(v: AttrValue) {
    match v
    case Text(s) => EmptyString(s)
    case List(items) => items == []
  }

  /** The default class merge: the glyph class becomes the whole `class` when it
      is unset or empty, is appended after a space to a class string, and is
      pushed onto the end of a class list; no other attribute changes. */
  function MergeClass(attrs: Dict<AttrValue>, glyph: string): (r: Dict<AttrValue>)
    ensures Keys(r) == if "class" in Keys(attrs) then Keys(attrs) else Keys(attrs) + ["class"]
    ensures forall k :: k != "class" ==> Get(r, k) == Get(attrs, k)
    ensures Get(attrs, "class").None? || EmptyAttr(Get(attrs, "class").value)
            ==> Get(r, "class") == Some(Text(glyph))
    ensures Get(attrs, "class").Some? && !EmptyAttr(Get(attrs, "class").value) && Get(attrs, "class").value.Text?
            ==> Get(r, "class") == Some(Text(Get(attrs, "class").value.s + " " + glyph))
    ensures Get(attrs, "class").Some? && !EmptyAttr(Get(attrs, "class").value) && Get(attrs, "class").value.List?
            ==> Get(r, "class") == Some(List(Get(attrs, "class").value.items + [glyph]))
  {
    var current := Get(attrs, "class");
    var merged :=
      if current.None? || EmptyAttr(current.value) then Text(glyph)
      else match current.value
        case List(items) => List(items + [glyph])
        case Text(s) => Text(s + " " + glyph);
    forall k | k != "class" ensures Get(Put(attrs, "class", merged), k) == Get(attrs, k) {
      PutKeepsOtherKeys(attrs, "class", merged, k);
    }
    Put(attrs, "class", merged)
  }

  /** The render callback that overrides the default markup for an icon: the
      icon's library tab declares one and PHP finds it callable. */
  function CallbackFor(tabs: Dict<Tab>, icon: Icon): (cb: Option<RenderCallback>)
    ensures cb.Some? <==>
      var tab := Get(tabs, icon.library.GetOr(""));
      tab.Some? && tab.value.renderCallback.Some? && tab.value.renderCallback.value.callable
    ensures cb.Some? ==> cb == Get(tabs, icon.library.GetOr("")).value.renderCallback
  {
    match Get(tabs, icon.library.GetOr(""))
    case Some(tab) =>
      if tab.renderCallback.Some? && tab.renderCallback.value.callable then tab.renderCallback else None
    case None => None
  }

  /** `<tag attrs></tag>`. */
  function Element(tag: string, attrs: string): (html: string)
    ensures StartsWith(html, "<" + tag + " " + attrs)
    ensures EndsWith(html, "></" + tag + ">")
    ensures |html| == 2 * |tag| + |attrs| + 6
  {
    "<" + tag + " " + attrs + "></" + tag + ">"
  }

  /** `render_icon_html`: a callable render callback of the icon's tab decides
      the markup alone; otherwise the glyph class is merged into the attributes
      and they are wrapped in the tag. */
  function IconHtml(tabs: Dict<Tab>, icon: Icon, attrs: Dict<AttrValue>, tag: string, env: Env): (html: string)
    ensures CallbackFor(tabs, icon).Some? ==> html == env.invokeCallback(CallbackFor(tabs, icon).value.id, icon, attrs, tag)
    ensures CallbackFor(tabs, icon).None? ==> html == Element(tag, env.renderAttributes(MergeClass(attrs, GlyphText(icon.value))))
  {
    match CallbackFor(tabs, icon)
    case Some(cb) => env.invokeCallback(cb.id, icon, attrs, tag)
    case None => Element(tag, env.renderAttributes(MergeClass(attrs, GlyphText(icon.value))))
  }

  /** `render_icon` proceeds only when the icon's library is not `empty()`. */
  predicate HasLibrary(icon: Icon): (has: bool)
    ensures !has <==> icon.library in {None, Some(""), Some("0")}
  {
    icon.library.Some? && !EmptyString(icon.library.value)
  }

  // ---------------------------------------------------------------- migration

  /** `add_update_needed_flag`: the editor settings with `icons_update_needed`
      set to true, every other setting as it was. */
  function AddUpdateNeededFlag(settings: Dict<Setting>): (r: Dict<Setting>)
    ensures Get(r, "icons_update_needed") == Some(Flag(true))
    ensures forall k :: k != "icons_update_needed" ==> Get(r, k) == Get(settings, k)
    ensures Keys(r) == if "icons_update_needed" in Keys(settings) then Keys(settings) else Keys(settings) + ["icons_update_needed"]
  {
    forall k | k != "icons_update_needed"
      ensures Get(Put(settings, "icons_update_needed", Flag(true)), k) == Get(settings, k)
    {
      PutKeepsOtherKeys(settings, "icons_update_needed", Flag(true), k);
    }
    Put(settings, "icons_update_needed", Flag(true))
  }

  /** Raising the flag on settings that already carry it changes nothing. */
  lemma AddUpdateNeededFlagIdempotent(settings: Dict<Setting>)
    ensures AddUpdateNeededFlag(AddUpdateNeededFlag(settings)) == AddUpdateNeededFlag(settings)
  {
    PutTwice(settings, "icons_update_needed", Flag(true));
  }

  /** The legacy stylesheet served while the migration is pending. */
  function LegacyStyle(assetsUrl: string, minify: bool): (style: Asset)
    ensures style.Style? && style.handle == "font-awesome" && style.ver == "4.7.0"
    ensures AssetStem(assetsUrl, "css", style.url) == Some("font-awesome" + (if minify then ".min" else ""))
    ensures !IsShimAsset(style)
  {
    AssetUrlRoundTrip(assetsUrl, "font-awesome", "css", minify);
    Style("font-awesome", AssetUrl(assetsUrl, "font-awesome", "css", minify), "4.7.0")
  }

  /** The three assets `enqueue_shim` queues, in order. */
  function ShimAssets(assetsUrl: string, minify: bool, version: string): (assets: seq<Asset>)
    ensures |assets| == 3 && forall a :: a in assets ==> IsShimAsset(a) && a.ver == version
    ensures assets[0].Script? && assets[1].Style? && assets[2].Style?
    ensures AssetStem(assetsUrl, "js", assets[0].url) == Some("v4-shim" + (if minify then ".min" else ""))
    ensures AssetStem(assetsUrl, "css", assets[1].url) == Some("all" + (if minify then ".min" else ""))
    ensures AssetStem(assetsUrl, "css", assets[2].url) == Some("v4-shim" + (if minify then ".min" else ""))
  {
    AssetUrlRoundTrip(assetsUrl, "v4-shim", "js", minify);
    AssetUrlRoundTrip(assetsUrl, "all", "css", minify);
    AssetUrlRoundTrip(assetsUrl, "v4-shim", "css", minify);
    [ Script("font-awesome-4-shim", AssetUrl(assetsUrl, "v4-shim", "js", minify), version),
      Style("font-awesome-5-all", AssetUrl(assetsUrl, "all", "css", minify), version),
      Style("font-awesome-4-shim", AssetUrl(assetsUrl, "v4-shim", "css", minify), version) ]
  }

  /** One of the three assets of the shim set, by kind and handle. */
  predicate IsShimAsset(a: Asset) {
    || (a.Script? && a.handle == "font-awesome-4-shim")
    || (a.Style? && (a.handle == "font-awesome-5-all" || a.handle == "font-awesome-4-shim"))
  }

  /** How many shim-set assets are in the queue. */
  function ShimLoads(queue: seq<Asset>): nat {
    if queue == [] then 0
    else (if IsShimAsset(queue[0]) then 1 else 0) + ShimLoads(queue[1..])
  }

  lemma {:induction false} ShimLoadsOfConcat(x: seq<Asset>, y: seq<Asset>)
    ensures ShimLoads(x + y) == ShimLoads(x) + ShimLoads(y)
  {
    if x == [] {
      assert x + y == y;
    } else {
      var xy := x + y;
      assert xy[0] == x[0] && xy[1..] == x[1..] + y;
      ShimLoadsOfConcat(x[1..], y);
    }
  }

  /** The shim set counts three shim assets; the legacy stylesheet counts none. */
  lemma ShimLoadsOfQueuedSets(assetsUrl: string, minify: bool, version: string)
    ensures ShimLoads(ShimAssets(assetsUrl, minify, version)) == 3
    ensures ShimLoads([LegacyStyle(assetsUrl, minify)]) == 0
  {
    var s := ShimAssets(assetsUrl, minify, version);
    assert ShimLoads(s[2..]) == 1 by {
      assert s[2..][1..] == [];
    }
    assert ShimLoads(s[1..]) == 1 + ShimLoads(s[2..]) by {
      assert s[1..][1..] == s[2..];
    }
  }
}
