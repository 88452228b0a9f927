/** The icons manager's state over one request: the static tab cache and the
    static test-mode flag, the persisted `elementor_icon_manager_needs_update`
    option, whether the shim action has fired, the markup echoed so far and the
    assets queued so far. */
module Manager {
  import opened PhpArrays
  import opened Icons

  /** The confirmation `ajax_upgrade_to_fa5` sends back. */
  const MigrationDoneMessage := "Hurray! The migration process to FontAwesome 5 was completed successfully."

  class IconsManager {
    const env: Env
    var tabs: Option<Dict<Tab>>     // static $tabs; None until init_tabs first runs
    var testMode: Option<bool>      // static $is_test_mode; None until first asked
    var needsUpgrade: bool          // the needs-update option is stored
    var shimDone: bool              // did_action( 'elementor_pro/icons_manager/shim_enqueued' )
    var output: seq<string>         // everything echoed, in order
    var enqueued: seq<Asset>        // everything queued, in order

    /** The caches only ever hold what the host's constants and filters give,
        and this object queues the shim set at most once, and only together with
        firing the shim action (which another caller may have fired before). */
    ghost predicate Valid()
      reads this
    {
      && (testMode.Some? ==> testMode.value == TestMode(env))
      && (tabs.Some? ==> tabs.value == NativeTabs(env))
      && (ShimLoads(enqueued) == 0 || (shimDone && ShimLoads(enqueued) == 3))
    }

    /** `is_migration_allowed`, as a value for contracts. */
    predicate MigrationAllowed()
      reads this
    {
      env.migrationAllowed(!needsUpgrade)
    }

    /** The start of a request: caches empty, nothing echoed or queued; the
        shim action may already have been fired by other code of the request. */
    constructor (env: Env, needsUpgrade: bool, shimFired: bool)
      ensures Valid()
      ensures this.env == env && this.needsUpgrade == needsUpgrade
      ensures tabs == None && testMode == None && shimDone == shimFired
      ensures output == [] && enqueued == []
    {
      this.env := env;
      this.needsUpgrade := needsUpgrade;
      tabs, testMode, shimDone := None, None, shimFired;
      output, enqueued := [], [];
    }

    /** `get_asset_url`: test mode is worked out on the first call and reused
        afterwards; ".min" goes in when test mode is off and the suffix is asked for. */
    method GetAssetUrl(filename: string, ext: string := "css", addSuffix: bool := true) returns (url: string)
      requires Valid()
      modifies this`testMode
      ensures Valid()
      ensures testMode == Some(TestMode(env))
      ensures old(testMode).Some? ==> testMode == old(testMode)
      ensures url == AssetUrl(env.assetsUrl, filename, ext, !testMode.value && addSuffix)
    {
      if testMode.None? {
        testMode := Some(TestMode(env));
      }
      url := AssetUrl(env.assetsUrl, filename, ext, !testMode.value && addSuffix);
    }

    /** `init_tabs`: the base tabs, built with the cached test mode, through the `native` filter. */
    method InitTabs()
      requires Valid()
      modifies this`tabs, this`testMode
      ensures Valid()
      ensures tabs == Some(NativeTabs(env)) && testMode == Some(TestMode(env))
    {
      var _ := GetAssetUrl("regular");
      tabs := Some(env.nativeTabs(BaseTabs(env.assetsUrl, !testMode.value)));
    }

    /** `get_icon_manager_tabs`: the cached tabs (built while the cache is null or
        an empty array) merged with the `additional_tabs` filter's tabs. */
    method GetIconManagerTabs() returns (all: Dict<Tab>)
      requires Valid()
      modifies this`tabs, this`testMode
      ensures Valid()
      ensures tabs == Some(NativeTabs(env))
      ensures old(tabs).Some? && old(tabs).value != [] ==> testMode == old(testMode)
      ensures !(old(tabs).Some? && old(tabs).value != []) ==> testMode == Some(TestMode(env))
      ensures all == Merge(NativeTabs(env), env.additionalTabs)
    {
      if tabs.None? || tabs.value == [] {
        InitTabs();
      }
      all := Merge(tabs.value, env.additionalTabs);
    }

    /** `get_icon_manager_tabs_config`: the picker's tab list. */
    method GetIconManagerTabsConfig() returns (config: seq<Tab>)
      requires Valid()
      modifies this`tabs, this`testMode
      ensures Valid() && tabs == Some(NativeTabs(env))
      ensures testMode == if old(tabs).Some? && old(tabs).value != [] then old(testMode) else Some(TestMode(env))
      ensures config == TabsConfig(Merge(NativeTabs(env), env.additionalTabs))
    {
      var all := GetIconManagerTabs();
      config := TabsConfig(all);
    }

    /** `render_icon_html`: the markup of a font icon against the current tabs. */
    method RenderIconHtml(icon: Icon, attrs: Dict<AttrValue> := [], tag: string := "i") returns (html: string)
      requires Valid()
      modifies this`tabs, this`testMode
      ensures Valid() && tabs == Some(NativeTabs(env))
      ensures testMode == if old(tabs).Some? && old(tabs).value != [] then old(testMode) else Some(TestMode(env))
      ensures html == IconHtml(Merge(NativeTabs(env), env.additionalTabs), icon, attrs, tag, env)
    {
      var all := GetIconManagerTabs();
      html := IconHtml(all, icon, attrs, tag, env);
    }

    /** `render_icon`: nothing is echoed and false comes back when the library
        is empty; otherwise exactly one piece of markup is echoed (SVG or font
        glyph, possibly "") and true comes back. */
    method RenderIcon(icon: Icon, attrs: Dict<AttrValue> := [], tag: string := "i") returns (rendered: bool)
      requires Valid()
      modifies this`output, this`tabs, this`testMode
      ensures Valid()
      ensures rendered == HasLibrary(icon)
      ensures |output| == |old(output)| + (if rendered then 1 else 0)
      ensures output[..|old(output)|] == old(output)
      ensures !rendered ==> tabs == old(tabs) && testMode == old(testMode)
      ensures rendered && icon.library.value == "svg" ==>
        output[|old(output)|] == SvgIcon(icon.value, env.inlineSvg) && tabs == old(tabs) && testMode == old(testMode)
      ensures rendered && icon.library.value != "svg" ==>
        output[|old(output)|] == IconHtml(Merge(NativeTabs(env), env.additionalTabs), icon, attrs, tag, env)
        && tabs == Some(NativeTabs(env))
        && testMode == if old(tabs).Some? && old(tabs).value != [] then old(testMode) else Some(TestMode(env))
    {
      if !HasLibrary(icon) {
        return false;
      }
      var html := "";
      if icon.library.value == "svg" {
        html := SvgIcon(icon.value, env.inlineSvg);
      } else {
        html := RenderIconHtml(icon, attrs, tag);
      }
      output := output + [html];
      rendered := true;
    }

    /** `is_migration_allowed`: the option is absent, as the `migration_allowed` filter sees it. */
    method IsMigrationAllowed() returns (allowed: bool)
      ensures allowed == env.migrationAllowed(!needsUpgrade)
      ensures allowed == MigrationAllowed()
    {
      allowed := env.migrationAllowed(!needsUpgrade);
    }

    /** `ajax_upgrade_to_fa5`: deletes the option, which nothing sets again;
        once it is gone a further call changes nothing. */
    method AjaxUpgradeToFa5() returns (message: string)
      requires Valid()
      modifies this`needsUpgrade
      ensures Valid()
      ensures !needsUpgrade
      ensures message == MigrationDoneMessage
    {
      needsUpgrade := false;
      message := MigrationDoneMessage;
    }

    /** `enqueue_shim`: the first call of a request queues the shim script, the
        Font Awesome 5 stylesheet and the shim stylesheet; later calls queue nothing. */
    method EnqueueShim()
      requires Valid()
      modifies this`shimDone, this`enqueued, this`testMode
      ensures Valid() && shimDone
      ensures old(shimDone) ==> enqueued == old(enqueued) && testMode == old(testMode)
      ensures !old(shimDone) ==> enqueued == old(enqueued) + ShimAssets(env.assetsUrl, !TestMode(env), env.version)
      ensures !old(shimDone) ==> testMode == Some(TestMode(env))
    {
      if shimDone {
        return;
      }
      var shimJs := GetAssetUrl("v4-shim", "js");
      var allCss := GetAssetUrl("all");
      var shimCss := GetAssetUrl("v4-shim");
      var shimSet := [ Script("font-awesome-4-shim", shimJs, env.version),
                       Style("font-awesome-5-all", allCss, env.version),
                       Style("font-awesome-4-shim", shimCss, env.version) ];
      assert shimSet == ShimAssets(env.assetsUrl, !TestMode(env), env.version);
      ShimLoadsOfQueuedSets(env.assetsUrl, !TestMode(env), env.version);
      ShimLoadsOfConcat(enqueued, shimSet);
      shimDone := true;
      enqueued := enqueued + shimSet;
    }

    /** `enqueue_fontawesome_css`: while migration is not allowed only the
        Font Awesome 4.7.0 stylesheet is queued; otherwise the shim set is. */
    method EnqueueFontawesomeCss()
      requires Valid()
      modifies this`shimDone, this`enqueued, this`testMode
      ensures Valid()
      ensures !MigrationAllowed() ==>
        enqueued == old(enqueued) + [LegacyStyle(env.assetsUrl, !TestMode(env))] && shimDone == old(shimDone)
      ensures MigrationAllowed() ==>
        shimDone && enqueued == old(enqueued) + (if old(shimDone) then [] else ShimAssets(env.assetsUrl, !TestMode(env), env.version))
      ensures !MigrationAllowed() || !old(shimDone) ==> testMode == Some(TestMode(env))
      ensures MigrationAllowed() && old(shimDone) ==> testMode == old(testMode)
    {
      var allowed := IsMigrationAllowed();
      if !allowed {
        var url := GetAssetUrl("font-awesome");
        ShimLoadsOfQueuedSets(env.assetsUrl, !TestMode(env), env.version);
        ShimLoadsOfConcat(enqueued, [LegacyStyle(env.assetsUrl, !TestMode(env))]);
        enqueued := enqueued + [Style("font-awesome", url, "4.7.0")];
      } else {
        EnqueueShim();
      }
    }
  }
}
