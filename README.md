# Elementor icons manager, modelled in Dafny

This project models the core of Elementor's icons manager
(`includes/managers/icons.php`, class `Icons_Manager`). The manager keeps a
registry of icon library "tabs" (Font Awesome 5.9.0 regular, solid and brands,
plus whatever other plugins add through filters). It builds the URLs of the
Font Awesome assets and renders an icon as a font glyph tag, as inline SVG, or
through a library's own render callback. It also drives the one-way Font
Awesome 4 to 5 migration: while the `elementor_icon_manager_needs_update`
option is stored, only the Font Awesome 4.7.0 stylesheet is served; once an
administrator deletes the option, the shim set is served instead, unless the
`migration_allowed` filter overrides it.

Files:

- `php_arrays.dfy` (module `PhpArrays`): string-keyed PHP arrays as ordered
  entry sequences with unique keys. `Put` is `$a[$k] = $v`. `Merge` is
  `array_merge`, defined as one assignment per entry of the second array.
  `Values` is `array_values`. The lemmas give `array_merge` in closed form
  (`Overlay` followed by `Excluding`) and describe its lookups and key order.
- `icons.dfy` (module `Icons`): the pure parts. These are the asset URL,
  the base tabs, the picker configuration, the default class merge, the render
  dispatch, the SVG renderer wrapper, the editor flag and the asset sets.
- `icons_manager.dfy` (module `Manager`): class `IconsManager`. Its fields
  stand for the static tab cache, the static test-mode cache, the persisted
  option, the `did_action` guard of the shim, the echoed output and the
  asset queue. `Valid()` is kept by every method. It says the caches hold only
  what the host gives, and the queue holds the three assets of the shim set
  either not at all or exactly once, the latter only after the shim action
  fired. The action may already have fired before the manager queues anything
  (another plugin can fire it), so the constructor takes its initial state.

Host collaborators are the fields of the datatype `Icons.Env`. The host
constants are `ELEMENTOR_ASSETS_URL`, `ELEMENTOR_VERSION`, `SCRIPT_DEBUG` and
`ELEMENTOR_TESTS`, the last two `None` when undefined. The three filters
(`native`, `additional_tabs`, `migration_allowed`) are functions or values.
Calling a render callback, `Utils::render_html_attributes` and
`Svg_Handler::get_inline_svg` are uninterpreted functions.

The `additional_tabs` filter's tabs go through `array_merge`
(includes/managers/icons.php:92), so an additional tab whose key is already
present replaces that tab's value, at the existing tab's position
(`PhpArrays.MergeGet`, `PhpArrays.MergeIsOverlayThenAppend`).

## Model

| member | source | states |
|---|---|---|
| `Icons.TestMode` | includes/managers/icons.php:122-124 | test mode is off when neither SCRIPT_DEBUG nor ELEMENTOR_TESTS is defined, on when either is defined true, and on only then |
| `Icons.AssetUrl` | includes/managers/icons.php:125-129 | the URL starts with base + `lib/font-awesome/` + ext + `/` + file name, ends with optional `.min` then `.` + ext, and has exactly the length of those parts |
| `Icons.AssetUrlRoundTrip` | includes/managers/icons.php:125-129 | stripping the directory and the `.`+ext from an asset URL gives back the file name, followed by `.min` exactly when minified |
| `Icons.AssetUrlMinified` | includes/managers/icons.php:126-128 | for a file name not already ending in `.min`, the URL ends with `.min.`+ext if and only if the minified form was asked for |
| `Manager.IconsManager.GetAssetUrl` | includes/managers/icons.php:120-130 | test mode (SCRIPT_DEBUG or ELEMENTOR_TESTS, when defined) is cached on the first call and never changes afterwards; `.min` is inserted exactly when test mode is off and the suffix is asked for |
| `Icons.BaseTabs` | includes/managers/icons.php:46-80 | the unfiltered tabs are keyed `regular`, `solid`, `brands` in that order; each is named after its key and has prefix `fa-`, version `5.9.0`, its own CSS URL, the shared `fontawesome` CSS as its only dependency, an unminified JSON catalogue URL and no render callback |
| `Icons.NativeTabs` | includes/managers/icons.php:46-80 | when the `native` filter passes its argument through, the registry is keyed `regular`, `solid`, `brands` in that order |
| `Manager.IconsManager.InitTabs` | includes/managers/icons.php:45-81 | the cache holds the base tabs through the `native` filter, built with the cached test mode |
| `Manager.IconsManager.GetIconManagerTabs` | includes/managers/icons.php:87-93 | the cache is rebuilt only while it is null or an empty array; the result is the cached tabs `array_merge`d with the additional tabs |
| `PhpArrays.Merge` | includes/managers/icons.php:92 | `array_merge(a, b)` starts with a's keys in a's order, and its keys are exactly those of a or of b |
| `PhpArrays.MergeIsOverlayThenAppend` | includes/managers/icons.php:92 | `array_merge(a, b)` keeps a's keys in a's order, each taking b's value when b has that key, and then appends b's other entries in b's order |
| `PhpArrays.MergeGet` | includes/managers/icons.php:92 | a key of `array_merge(a, b)` maps to b's value when b has the key, otherwise to a's |
| `PhpArrays.MergeKeys` | includes/managers/icons.php:92 | the merged keys start with a's keys unchanged and continue with the keys only b has; the length is a's plus those |
| `PhpArrays.Put` | includes/managers/icons.php:157 | assigning a key keeps an existing key's position or appends a new key last, and the key then maps to the assigned value |
| `PhpArrays.PutKeepsOtherKeys` | includes/managers/icons.php:157 | assigning one key leaves every other key's value unchanged |
| `Icons.TabsConfig` | includes/managers/icons.php:132-141 | the picker list's first entry is the registry's own `all` tab if it has one and the synthetic `all` entry otherwise; the rest are the other tabs in registry order; its length is the number of tabs, plus one when the registry has no `all` |
| `PhpArrays.Values` | includes/managers/icons.php:140 | `array_values` keeps the number of entries and gives each entry's value at that entry's position |
| `Manager.IconsManager.GetIconManagerTabsConfig` | includes/managers/icons.php:132-141 | returns the picker list of the merged tabs, building the tab cache when needed; test mode is cached exactly when the tab cache was null or empty, and is otherwise unchanged |
| `Icons.SvgIcon` | includes/managers/icons.php:143-148 | the inline SVG of the attachment id, and `""` when the value carries no `id` |
| `Icons.CallbackFor` | includes/managers/icons.php:152 | a render callback applies exactly when the icon's library tab exists, sets `render_callback`, and that callback is callable |
| `Icons.GlyphText` | includes/managers/icons.php:157-162 | a string value is the glyph class itself; an array value (an SVG asset) becomes PHP's string `"Array"` |
| `Icons.MergeClass` | includes/managers/icons.php:156-164 | an unset or empty (`""`, `"0"`, empty list) class becomes the glyph class; a class string gets a space and the glyph appended; a class list gets the glyph pushed last, earlier items unchanged; `class` keeps its position or is appended; every other attribute is unchanged |
| `Icons.Element` | includes/managers/icons.php:165 | the markup opens with `<tag ` and the attributes, and ends with `></tag>` |
| `Icons.IconHtml` | includes/managers/icons.php:150-166 | with an applicable render callback the callback's result is returned verbatim; otherwise the markup is the tag around the serialised attributes after the class merge |
| `Manager.IconsManager.RenderIconHtml` | includes/managers/icons.php:150-166 | renders against the current merged tabs, building the tab cache when needed; test mode is cached exactly when the tab cache was null or empty, and is otherwise unchanged |
| `Icons.HasLibrary` | includes/managers/icons.php:179 | an icon is rendered unless its library is absent, `""` or `"0"`, and in no other case |
| `Manager.IconsManager.RenderIcon` | includes/managers/icons.php:178-191 | an empty or absent library (`""`, `"0"`) returns false, echoes nothing and touches no cache; any other icon returns true and echoes exactly one piece of markup: the SVG (possibly `""`) for `svg`, leaving both caches as they were, else the icon HTML, with the tab cache built and test mode cached when the tab cache was null or empty, and otherwise unchanged |
| `Manager.IconsManager.IsMigrationAllowed` | includes/managers/icons.php:197-203 | the `migration_allowed` filter applied to "the needs-update option is absent" |
| `Manager.IconsManager.AjaxUpgradeToFa5` | includes/managers/icons.php:265-271 | afterwards the option is absent and nothing else changes, so a second call changes nothing; the confirmation message is returned |
| `Manager.IconsManager.EnqueueShim` | includes/managers/icons.php:95-118 | while the shim action has not fired, a call fires it, caches test mode and queues the v4-shim script, the `all` stylesheet and the v4-shim stylesheet at the Elementor version, in that order; once it has fired, a call changes nothing |
| `Icons.ShimAssets` | includes/managers/icons.php:100-117 | the shim set is a script then two stylesheets, all shim assets at the given version, whose URLs name `v4-shim.js`, `all.css` and `v4-shim.css`, each with `.min` exactly when minified |
| `Icons.LegacyStyle` | includes/managers/icons.php:286-291 | the legacy asset is the `font-awesome` stylesheet at version `4.7.0` whose URL names `font-awesome.css`, with `.min` exactly when minified; it is not a shim asset |
| `Manager.IconsManager.EnqueueFontawesomeCss` | includes/managers/icons.php:284-295 | while migration is not allowed, only the `font-awesome` stylesheet at version `4.7.0` is queued and test mode is cached; otherwise the shim set is queued and test mode cached unless the shim action already fired, in which case nothing changes |
| `Icons.ShimLoadsOfQueuedSets` | includes/managers/icons.php:100-117 | the shim set holds the three shim assets; the legacy stylesheet holds none |
| `Icons.AddUpdateNeededFlag` | includes/managers/icons.php:279-282 | `icons_update_needed` is true afterwards, every other setting is unchanged, and the key keeps its position or is appended |
| `Icons.AddUpdateNeededFlagIdempotent` | includes/managers/icons.php:279-282 | raising the flag twice is the same as raising it once |

## Left out

- The constructor's hook registrations (`add_action`, `do_action`) are not modelled, and neither is the `is_admin()`/`$_POST` request inspection that chooses them. The filters are fields of `Env`; `did_action` is the `shimDone` field.
- `register_admin_settings`, `register_admin_tools_settings` and `add_admin_strings` are left out because they only build admin UI HTML and translated strings. Every `__()`/`esc_html__()` call is taken as its English text.
- `check_ajax_referer` is left out; the nonce is assumed valid, since a failing check stops the request before any state changes. `wp_send_json_success` is modelled only as the returned message.
- `wp_enqueue_script`/`wp_enqueue_style` are modelled as appending (handle, URL, version) to a queue. The dependency list, always empty, is dropped.
- `Svg_Handler::get_inline_svg`, `Utils::render_html_attributes` and the invocation of a render callback are uninterpreted functions. HTML escaping and SVG content are not modelled.
- Manager.IconsManager.GetIconManagerTabs: the `native` and `additional_tabs` filters are fixed for the object's lifetime. PHP's static tab cache keeps whatever the `native` filter returned at the first build, and it would ignore a `native` filter hooked later in the request; such a filter is not modelled. `additional_tabs` is re-applied on every call in PHP, and here it gives the same value each time. The cache therefore has no observable effect on the tabs in this model; what the model does state is when the cache is rebuilt and when test mode gets cached.
- Manager.IconsManager.GetAssetUrl: the host constants are fixed for the object's lifetime. A constant defined after the first call, which PHP's static cache would ignore, is therefore not modelled.
- PhpArrays.Dict: keys that PHP reads as integers are outside the model. These are integer keys and canonical decimal strings such as `"5"`, which PHP stores as the integer 5. `array_merge` renumbers such keys and appends their entries instead of replacing them, so `PhpArrays.Merge`, `PhpArrays.MergeGet`, `PhpArrays.MergeKeys` and `PhpArrays.MergeIsOverlayThenAppend` describe PHP only for other keys. The base tabs use none. The tabs that other plugins add through `additional_tabs` are assumed not to use them either.
- Attribute values are strings or lists of strings. Other PHP values (numbers, `null`, `false`) are not modelled; an absent library stands for `null`.
- Icons.GlyphText: an array `value` given to a font library is rendered with PHP's string conversion `"Array"` in all three class-merge cases. Only the string case (includes/managers/icons.php:162) converts it that way. PHP stores the array itself as `class` when `class` is empty (:157), and pushes the array itself when `class` is a list (:160). Nested arrays are not modelled as attribute values.
- A `native` filter returning something other than an array (`false`, `null`) is not modelled.
- The `needs_update` option's stored value is not modelled; only whether it is present matters in the code.
- Concurrent requests are not modelled.
