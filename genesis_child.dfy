/**
 The decision logic of the `GenesisChild` theme helper: the fallback custom
 header style written to the document head, and the auto-update allowlist
 for the Genesis parent theme.

 Every host query the PHP code makes (theme support flags, the header image,
 the header text colour, the markup mode) is a field of `HeaderSettings`; the
 host's escaping routines are the two total functions of `Escaping`, about
 which nothing is assumed.
 */
module GenesisChild {

  import opened Wrappers

  // ---------------------------------------------------------------------------
  // Host state read by the header style callback
  // ---------------------------------------------------------------------------

  /** What the host reports for one render of the document head. */
  datatype HeaderSettings = HeaderSettings(
    supportsCustomHeader: bool,       // current_theme_supports('custom-header')
    hasHeadCallback: bool,            // truthiness of the 'wp-head-callback' option
    headerImage: Option<string>,      // get_header_image(): a URL, or false
    textColor: string,                // get_header_textcolor(), hex without '#'
    defaultTextColor: Option<string>, // the 'default-text-color' option, if declared
    displayHeaderText: bool,          // display_header_text()
    headerSelector: Option<string>,   // the 'header-selector' option, if declared
    html5: bool                       // genesis_html5()
  )

  /** The host's escaping routines, treated as arbitrary string maps. */
  datatype Escaping = Escaping(url: string -> string, html: string -> string)

  /** PHP truthiness of a value that is either a string or `false`:
      `false`, the empty string and "0" are falsy. */
  predicate Truthy(v: Option<string>) {
    v.Some? && v.value != "" && v.value != "0"
  }

  // ---------------------------------------------------------------------------
  // Fixed-template text and its decoding
  // ---------------------------------------------------------------------------

  /** The part of `s` strictly between the prefix `pre` and the suffix `post`,
      if `s` has that shape. */
  function Between(s: string, pre: string, post: string): Option<string> {
    if |pre| + |post| <= |s| && s[..|pre|] == pre && s[|s| - |post|..] == post
    then Some(s[|pre|..|s| - |post|])
    else None
  }

  // ---------------------------------------------------------------------------
  // Selectors
  // ---------------------------------------------------------------------------

  /** Every selector of the markup mode is scoped under `.custom-header `; the
      character after that scope marks a class selector ('.') in HTML5 markup
      and an id selector ('#') in legacy markup. */
  predicate ScopedForMarkup(sel: string, html5: bool) {
    |sel| > 15 && sel[..15] == ".custom-header " && sel[15] == (if html5 then '.' else '#')
  }

  function TitleSelector(html5: bool): (sel: string)
    ensures ScopedForMarkup(sel, html5)
  {
    if html5 then ".custom-header .site-title" else ".custom-header #title"
  }

  function DescSelector(html5: bool): (sel: string)
    ensures ScopedForMarkup(sel, html5)
  {
    if html5 then ".custom-header .site-description" else ".custom-header #description"
  }

  function DefaultHeaderSelector(html5: bool): (sel: string)
    ensures ScopedForMarkup(sel, html5)
  {
    if html5 then ".custom-header .site-header" else ".custom-header #header"
  }

  /** The selector the background rule is scoped to: a truthy override wins in
      either markup mode; otherwise the markup mode's own header selector. */
  function HeaderSelector(s: HeaderSettings): (sel: string)
    ensures Truthy(s.headerSelector) ==> sel == s.headerSelector.value
    ensures !Truthy(s.headerSelector) ==> sel == DefaultHeaderSelector(s.html5)
  {
    if Truthy(s.headerSelector) then s.headerSelector.value else DefaultHeaderSelector(s.html5)
  }

  /** A truthy override makes the header selector independent of the markup mode. */
  lemma OverrideIgnoresMarkupMode(s: HeaderSettings)
    requires Truthy(s.headerSelector)
    ensures HeaderSelector(s) == HeaderSelector(s.(html5 := !s.html5)) == s.headerSelector.value
  {
  }

  // ---------------------------------------------------------------------------
  // The two CSS rules
  // ---------------------------------------------------------------------------

  const BackgroundOpen := "{background-image:url("
  const BackgroundClose := ") !important; background-repeat:no-repeat !important;}"

  /** `%s{background-image:url(%s) !important; background-repeat:no-repeat !important;}` */
  function BackgroundRule(selector: string, url: string): (rule: string)
    ensures selector <= rule
    ensures UrlOf(rule, selector) == Some(url)
  {
    selector + BackgroundOpen + url + BackgroundClose
  }

  /** The URL a background rule scoped to `selector` names, if `rule` is one. */
  function UrlOf(rule: string, selector: string): Option<string> {
    Between(rule, selector + BackgroundOpen, BackgroundClose)
  }

  function ColorOpen(title: string, desc: string): string {
    title + " a, " + title + " a:hover, " + desc + " { color: #"
  }

  const ColorClose := " !important; }"

  /** `%2$s a, %2$s a:hover, %3$s { color: #%1$s !important; }` */
  function ColorRule(title: string, desc: string, color: string): (rule: string)
    ensures title <= rule
  {
    ColorOpen(title, desc) + color + ColorClose
  }

  /** The colour a colour rule over `title` and `desc` sets, if `rule` is one. */
  function ColorOf(rule: string, title: string, desc: string): Option<string> {
    Between(rule, ColorOpen(title, desc), ColorClose)
  }

  lemma ColorRuleRoundTrip(title: string, desc: string, color: string)
    ensures ColorOf(ColorRule(title, desc, color), title, desc) == Some(color)
  {
  }

  /** A colour rule names exactly one colour: two rules over the same
      selectors are equal only when their colours are. */
  lemma ColorRuleNamesOneColor(title: string, desc: string, c1: string, c2: string)
    ensures ColorRule(title, desc, c1) == ColorRule(title, desc, c2) <==> c1 == c2
  {
    ColorRuleRoundTrip(title, desc, c1);
    ColorRuleRoundTrip(title, desc, c2);
  }

  // ---------------------------------------------------------------------------
  // The accumulated `$output`
  // ---------------------------------------------------------------------------

  /** Whether the header text colour rule is wanted: text shown, and the colour
      not strictly equal to the declared default (an absent default never is). */
  predicate ShowsColor(s: HeaderSettings) {
    s.displayHeaderText && s.defaultTextColor != Some(s.textColor)
  }

  /** The theme does not support a custom header, or renders its own. */
  predicate Suppressed(s: HeaderSettings) {
    !s.supportsCustomHeader || s.hasHeadCallback
  }

  /** The "no options set" early return of the source. */
  predicate NothingSet(s: HeaderSettings) {
    !Truthy(s.headerImage) && !s.displayHeaderText && s.defaultTextColor == Some(s.textColor)
  }

  /** The background part of `$output`: present exactly when there is a header
      image, and then a rule on the header selector naming the escaped URL. */
  function BackgroundPart(s: HeaderSettings, esc: Escaping): (part: string)
    ensures part != "" <==> Truthy(s.headerImage)
    ensures Truthy(s.headerImage) ==>
      UrlOf(part, HeaderSelector(s)) == Some(esc.url(s.headerImage.value))
  {
    if Truthy(s.headerImage) then
      BackgroundRule(HeaderSelector(s), esc.url(s.headerImage.value))
    else ""
  }

  /** The colour part of `$output`: present exactly when the colour rule is
      wanted, and then a rule on the title and description selectors of the
      markup mode setting the text colour. */
  function ColorPart(s: HeaderSettings): (part: string)
    ensures part != "" <==> ShowsColor(s)
    ensures ShowsColor(s) ==>
      ColorOf(part, TitleSelector(s.html5), DescSelector(s.html5)) == Some(s.textColor)
  {
    if ShowsColor(s) then
      ColorRule(TitleSelector(s.html5), DescSelector(s.html5), s.textColor)
    else ""
  }

  /** The CSS text the callback accumulates: the background rule, if any,
      followed by the colour rule, if any. */
  function HeaderCss(s: HeaderSettings, esc: Escaping): (css: string)
    ensures css == "" <==> !Truthy(s.headerImage) && !ShowsColor(s)
    ensures BackgroundPart(s, esc) <= css
    ensures css[|BackgroundPart(s, esc)|..] == ColorPart(s)
  {
    BackgroundPart(s, esc) + ColorPart(s)
  }

  // ---------------------------------------------------------------------------
  // The printed style block
  // ---------------------------------------------------------------------------

  const StyleOpen := "<style type=\"text/css\">"
  const StyleClose := "</style>\n"

  /** `<style type="text/css">%s</style>` followed by a newline. */
  function StyleTag(body: string): (tag: string)
    ensures StyleBody(tag) == Some(body)
  {
    StyleOpen + body + StyleClose
  }

  /** The body of a style block, if `tag` is one. */
  function StyleBody(tag: string): Option<string> {
    Between(tag, StyleOpen, StyleClose)
  }

  /** What the callback prints on one render: nothing when the theme does not
      support a custom header or renders its own, nothing when no CSS
      accumulates, and otherwise one style block around the HTML-escaped CSS. */
  function HeaderStyle(s: HeaderSettings, esc: Escaping): (printed: Option<string>)
    ensures Suppressed(s) ==> printed == None
    ensures NothingSet(s) ==> printed == None
    ensures printed.Some? ==> HeaderCss(s, esc) != ""
    ensures printed.Some? ==> StyleBody(printed.value) == Some(esc.html(HeaderCss(s, esc)))
    ensures !Suppressed(s) && HeaderCss(s, esc) != "" ==>
      printed == Some(StyleTag(esc.html(HeaderCss(s, esc))))
  {
    if Suppressed(s) || HeaderCss(s, esc) == "" then None
    else Some(StyleTag(esc.html(HeaderCss(s, esc))))
  }

  /** Exactly when a style block is printed: the theme must support a custom
      header without its own callback, and there must be a header image or a
      text colour rule. In particular, no image together with hidden text or
      the default colour prints nothing, with or without the early return. */
  lemma HeaderStylePrintedIff(s: HeaderSettings, esc: Escaping)
    ensures HeaderStyle(s, esc).Some? <==>
      !Suppressed(s) && (Truthy(s.headerImage) || ShowsColor(s))
  {
  }

  /** Once the guards pass, an image's background rule on the header selector
      opens the CSS, before any colour rule. */
  lemma BackgroundRuleComesFirst(s: HeaderSettings, esc: Escaping)
    requires !Suppressed(s) && Truthy(s.headerImage)
    ensures HeaderStyle(s, esc).Some?
    ensures BackgroundRule(HeaderSelector(s), esc.url(s.headerImage.value)) <= HeaderCss(s, esc)
  {
  }

  /** With an image and no truthy override, the CSS opens with the markup
      mode's own header selector. */
  lemma DefaultSelectorOpensCss(s: HeaderSettings, esc: Escaping)
    requires Truthy(s.headerImage) && !Truthy(s.headerSelector)
    ensures DefaultHeaderSelector(s.html5) <= HeaderCss(s, esc)
  {
  }

  /** Switching between HTML5 and legacy markup changes the CSS exactly when
      some rule uses a markup-dependent selector: the background rule without
      an override, or the colour rule. */
  lemma MarkupModeChangesCss(s: HeaderSettings, esc: Escaping)
    ensures HeaderCss(s, esc) != HeaderCss(s.(html5 := !s.html5), esc) <==>
      (Truthy(s.headerImage) && !Truthy(s.headerSelector)) || ShowsColor(s)
  {
  }

  /** Two renders that differ only in the text colour, both showing the colour
      rule, print different CSS: the rule names its own colour and no other. */
  lemma CssDeterminesTextColor(s: HeaderSettings, esc: Escaping, color: string)
    requires ShowsColor(s) && ShowsColor(s.(textColor := color))
    requires HeaderCss(s, esc) == HeaderCss(s.(textColor := color), esc)
    ensures color == s.textColor
  {
  }

  /**
   The callback as the source writes it: the two early returns, `$output`
   grown with `.=`, and one print when it is non-empty. It prints exactly what
   `HeaderStyle` describes, so the "no options set" early return never changes
   the outcome.
   */
  method GenesisCustomHeaderStyle(s: HeaderSettings, esc: Escaping) returns (printed: Option<string>)
    ensures printed == HeaderStyle(s, esc)
  {
    printed := None;
    if !s.supportsCustomHeader || s.hasHeadCallback {
      return;
    }

    var output := "";
    var headerImage := s.headerImage;
    var textColor := s.textColor;

    if !Truthy(headerImage) && !s.displayHeaderText && s.defaultTextColor == Some(textColor) {
      return;
    }

    var headerSelector := s.headerSelector;
    var titleSelector := TitleSelector(s.html5);
    var descSelector := DescSelector(s.html5);
    var selector: string;
    if !Truthy(headerSelector) {
      selector := DefaultHeaderSelector(s.html5);
    } else {
      selector := headerSelector.value;
    }

    if Truthy(headerImage) {
      output := output + BackgroundRule(selector, esc.url(headerImage.value));
    }
    assert output == BackgroundPart(s, esc);

    if s.displayHeaderText && s.defaultTextColor != Some(textColor) {
      output := output + ColorRule(titleSelector, descSelector, textColor);
    }
    assert output == BackgroundPart(s, esc) + ColorPart(s) == HeaderCss(s, esc);

    if output != "" {
      printed := Some(StyleTag(esc.html(output)));
    }
  }

  // ---------------------------------------------------------------------------
  // Auto-update allowlist
  // ---------------------------------------------------------------------------

  /** The theme update offered to the `auto_update_theme` filter. */
  datatype ThemeItem = ThemeItem(theme: string)

  /** Forces automatic updates of the Genesis parent theme and leaves the
      decision for every other theme untouched. */
  function AutoUpdateGenesis(update: bool, item: ThemeItem): (r: bool)
    ensures item.theme == "genesis" ==> r
    ensures update ==> r
    ensures item.theme != "genesis" ==> r == update
  {
    if item.theme == "genesis" then true else update
  }

  /** Genesis is the only theme whose update is forced: the answer overrides a
      refusal exactly for it. */
  lemma AutoUpdateForcesOnlyGenesis(item: ThemeItem)
    ensures AutoUpdateGenesis(false, item) <==> item.theme == "genesis"
  {
  }

  /** Running the filter on its own answer changes nothing. */
  lemma AutoUpdateIdempotent(update: bool, item: ThemeItem)
    ensures AutoUpdateGenesis(AutoUpdateGenesis(update, item), item) == AutoUpdateGenesis(update, item)
  {
  }
}
