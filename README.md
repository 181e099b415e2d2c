# GenesisChild header style and auto-update allowlist

A Dafny model of the two pieces of decision logic in the `GenesisChild`
helper class of a Genesis child theme for WordPress:

- **the custom header style callback** (`genesis_custom_header_style`), which
  runs on `wp_head` in place of Genesis's own callback. It prints nothing
  when the theme does not support a custom header or registers its own
  `wp-head-callback`. Otherwise it builds CSS for the header: a
  background-image rule on the header selector when a header image is set,
  then a text colour rule on the title and description selectors when the
  header text is shown and its colour is not the declared default. It prints
  the CSS in one `<style type="text/css">` block, only when some CSS was built;
- **the auto-update filter** (`auto_update_genesis`), which forces automatic
  updates of the `genesis` parent theme and passes every other theme's
  decision through.

Every host query becomes a field of `HeaderSettings`:
`current_theme_supports`, `get_theme_support` for `wp-head-callback`,
`default-text-color` and `header-selector`, `get_header_image`,
`get_header_textcolor`, `display_header_text` and `genesis_html5`. The
escaping routines `esc_url` and `esc_html` are two arbitrary total string
functions (`Escaping`), and nothing is assumed about them. The printed text
is the callback's result (`Option<string>`, `None` for no output).

PHP semantics made explicit:

- A value that is a string or `false` is an `Option<string>`. It is truthy
  (`Truthy`) when it is a string other than `""` and `"0"`. So `"0"` counts as
  no header image and as no selector override. `empty()` on the header image
  and `if ($header_image)` are the negation and the value of this test. The
  `! $header_selector` fallback uses the same test.
- The `default-text-color` option may be undeclared (`None`). The colour is
  compared with `===` / `!==`, and an undeclared default never strictly
  equals the current colour.
- The callback itself applies `esc_html` and prints
  `<style type="text/css">`, the escaped CSS, `</style>` and a newline. The
  model returns exactly that text.
- `display_header_text()` is called twice and `genesis_html5()` three times.
  The model assumes every call site within one render sees the same value.

`GenesisCustomHeaderStyle` keeps the callback's statement structure: two
early returns, `$output` grown with `.=`, and a final print. `HeaderStyle`
is its declarative specification. The method's postcondition equates the two.
So the "no options set" early return (lines 135-141) never changes what is
printed: in that case no CSS would accumulate anyway.

## Model

| member | source | states |
|---|---|---|
| `GenesisChild.HeaderSelector` | src/GenesisChild.php:143-150 | a truthy `header-selector` override is used verbatim; otherwise `.custom-header .site-header` (HTML5) or `.custom-header #header` (legacy) |
| `GenesisChild.OverrideIgnoresMarkupMode` | src/GenesisChild.php:143-150 | with a truthy override, the header selector is the override in both markup modes |
| `GenesisChild.TitleSelector` | src/GenesisChild.php:144 | the title selector (`.custom-header .site-title` or `.custom-header #title`) is scoped under `.custom-header ` and is a class selector in HTML5 markup, an id selector in legacy markup |
| `GenesisChild.DescSelector` | src/GenesisChild.php:145 | the description selector (`.custom-header .site-description` or `.custom-header #description`) is scoped under `.custom-header ` and is a class selector in HTML5 markup, an id selector in legacy markup |
| `GenesisChild.DefaultHeaderSelector` | src/GenesisChild.php:149 | the fallback header selector (`.custom-header .site-header` or `.custom-header #header`) is scoped under `.custom-header ` and is a class selector in HTML5 markup, an id selector in legacy markup |
| `GenesisChild.DefaultSelectorOpensCss` | src/GenesisChild.php:148-154 | with an image and no truthy override, the CSS opens with the markup mode's own header selector |
| `GenesisChild.MarkupModeChangesCss` | src/GenesisChild.php:144-162 | switching markup mode changes the CSS iff there is an image without an override, or a colour rule |
| `GenesisChild.BackgroundRule` | src/GenesisChild.php:154 | the rule `%s{background-image:url(%s) !important; background-repeat:no-repeat !important;}` opens with its selector and decodes back to exactly the URL it was built from |
| `GenesisChild.ColorRule` | src/GenesisChild.php:162 | the rule `T a, T a:hover, D { color: #C !important; }` opens with the title selector T |
| `GenesisChild.ColorRuleRoundTrip` | src/GenesisChild.php:162 | the colour rule on title/description selectors decodes back to exactly the colour it was built from |
| `GenesisChild.StyleTag` | src/GenesisChild.php:167 | the block `<style type="text/css">` + body + `</style>` and a newline decodes back to exactly the body placed in it |
| `GenesisChild.Suppressed` | src/GenesisChild.php:125 | the first early return: no custom header support, or a truthy `wp-head-callback` |
| `GenesisChild.NothingSet` | src/GenesisChild.php:135-139 | the second early return: no truthy image, header text hidden, and the colour strictly equal to the declared default |
| `GenesisChild.ColorRuleNamesOneColor` | src/GenesisChild.php:162 | two colour rules over the same selectors are equal iff their colours are: the colour fills one slot of the template |
| `GenesisChild.BackgroundPart` | src/GenesisChild.php:152-155 | the background part of the CSS is non-empty iff the header image is truthy, and then it is a rule on the header selector naming `esc_url(image)` |
| `GenesisChild.ColorPart` | src/GenesisChild.php:157-163 | the colour part is non-empty iff header text is shown and the colour is not strictly the default, and then it is a rule on the markup mode's title/description selectors naming the text colour |
| `GenesisChild.HeaderCss` | src/GenesisChild.php:129-163 | the accumulated CSS is empty iff there is no image and no colour rule; the background part is its prefix and the colour part the rest |
| `GenesisChild.HeaderStyle` | src/GenesisChild.php:122-170 | nothing is printed without custom header support or with a head callback, nor when no options are set; once those guards pass and the CSS is non-empty, exactly the style block around `esc_html` of the CSS is printed, and whatever is printed decodes back to that escaped CSS |
| `GenesisChild.HeaderStylePrintedIff` | src/GenesisChild.php:125-168 | a style block is printed iff custom headers are supported with no own callback and there is a header image or a colour rule |
| `GenesisChild.BackgroundRuleComesFirst` | src/GenesisChild.php:153-162 | with the guards passed and an image set, something is printed and the CSS opens with the background rule, before any colour rule |
| `GenesisChild.CssDeterminesTextColor` | src/GenesisChild.php:158-163 | two renders differing only in text colour, both showing the colour rule, produce the same CSS only if the colours are equal |
| `GenesisChild.GenesisCustomHeaderStyle` | src/GenesisChild.php:122-170 | the callback step by step (early returns, `.=` accumulation, print only when non-empty) prints exactly what `HeaderStyle` specifies |
| `GenesisChild.AutoUpdateGenesis` | src/GenesisChild.php:84-91 | returns `true` for the `genesis` theme; never turns an allowed update off; for any other theme the incoming decision is returned unchanged |
| `GenesisChild.AutoUpdateForcesOnlyGenesis` | src/GenesisChild.php:86-90 | an incoming refusal is overridden iff the theme is `genesis` |
| `GenesisChild.AutoUpdateIdempotent` | src/GenesisChild.php:84-91 | applying the filter to its own answer changes nothing |

## Left out

- The constructor's hook wiring and the `Singleton` base (src/GenesisChild.php:40-45): host event registration with no logic of its own.
- `load_stylesheet`, `plugins_loaded` and `after_setup_theme` (src/GenesisChild.php:54-58, 96-110): they only add or remove hooks. The `WP_DEBUG` check there only decides whether a filter is added.
- `enqueue_main_stylesheet` (src/GenesisChild.php:66-74): file modification time, host paths, `sanitize_title_with_dashes` and `wp_enqueue_style` are all host calls with no local logic.
- The `\WPS\write_log` call in `auto_update_genesis` (src/GenesisChild.php:85): a logging side effect.
- The internals of `esc_url`, `esc_html` and the host queries. The `Singleton` base and the WordPress/Genesis libraries are not part of this model. The escapers are arbitrary functions and the queries are input fields.
- The `printf` itself: the printed text is returned instead of written to the page.
- `GenesisChild.AutoUpdateGenesis`: models `$update` as a boolean and `$item` by its `theme` slug only. A `null` decision from the host is not distinguished.
- `GenesisChild.HeaderSelector`: models the `header-selector` option as a string or `false`. Other PHP values (arrays, `true`) are not modelled.
