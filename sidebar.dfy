/**
 * The sidebar: a collapse flag it reports to the shell, and the language switch, which rewrites the current
 * path from one locale's URL space into another's.  English lives at the root, every other locale under
 * `/<locale>`.
 */
module Sidebar {
  import opened Wrappers

  /** The locale whose pages live at the root. */
  const DefaultLocale: string := "en-US"

  /** Whether the path starts with a segment the rewrite removes: `/en-US/` or `/ro/`. */
  predicate HasLocalePrefix(path: string) {
    StartsWith(path, "/en-US/") || StartsWith(path, "/ro/")
  }

  /** `replace(/^\/(en-US|ro)\//, '/')`: one leading locale segment becomes '/'. */
  function StripLocale(path: string): string {
    if StartsWith(path, "/en-US/") then "/" + path[7..]
    else if StartsWith(path, "/ro/") then "/" + path[4..]
    else path
  }

  /** The URL `switchLanguage(locale)` navigates to from `path`. */
  function SwitchLanguageUrl(path: string, locale: string): string {
    var stripped := StripLocale(path);
    if locale != DefaultLocale then "/" + locale + stripped else stripped
  }

  /**
   * The rewrite removes exactly one locale segment: `/<locale>` followed by a rooted path `rest` becomes
   * `rest`, even when `rest` starts with another locale segment.
   */
  lemma StripLocaleSegment(locale: string, rest: string)
    requires locale == "en-US" || locale == "ro"
    requires StartsWith(rest, "/")
    ensures StripLocale("/" + locale + rest) == rest
  {
    var path := "/" + locale + rest;
    if locale == "en-US" {
      assert StartsWith(path, "/en-US/");
      assert path[7..] == rest[1..];
    } else {
      assert !StartsWith(path, "/en-US/") by {
        assert path[1] == 'r';
      }
      assert StartsWith(path, "/ro/");
      assert path[4..] == rest[1..];
    }
    assert "/" + rest[1..] == rest;
  }

  /** Paths without a locale segment, '/ro' among them, are left as they are; a rooted path stays rooted. */
  lemma StripLocaleKeeps(path: string)
    ensures !HasLocalePrefix(path) ==> StripLocale(path) == path
    ensures StartsWith(path, "/") ==> StartsWith(StripLocale(path), "/")
    ensures StripLocale("/ro") == "/ro"
  {
    assert !StartsWith("/ro", "/ro/");
  }

  /**
   * Switching to Romanian and back to English returns to the English page, and switching to English from a
   * Romanian page drops the prefix.
   */
  lemma SwitchLanguageRoundTrip(path: string)
    requires StartsWith(path, "/") && !HasLocalePrefix(path)
    ensures SwitchLanguageUrl(path, "ro") == "/ro" + path
    ensures SwitchLanguageUrl(SwitchLanguageUrl(path, "ro"), DefaultLocale) == path
    ensures SwitchLanguageUrl(path, DefaultLocale) == path
  {
    StripLocaleKeeps(path);
    assert "/ro" + path == "/" + "ro" + path;
    StripLocaleSegment("ro", path);
  }

  /** Once on a Romanian page, the next switch goes where it would have gone from the original path. */
  lemma SwitchFromRomanianForgets(path: string, locale: string)
    requires StartsWith(path, "/")
    ensures SwitchLanguageUrl(SwitchLanguageUrl(path, "ro"), locale) == SwitchLanguageUrl(path, locale)
  {
    var stripped := StripLocale(path);
    StripLocaleKeeps(path);
    assert SwitchLanguageUrl(path, "ro") == "/" + "ro" + stripped;
    StripLocaleSegment("ro", stripped);
  }

  /** The two cases the language menu is built for. */
  lemma SwitchLanguageExamples()
    ensures SwitchLanguageUrl("/ro/x", DefaultLocale) == "/x"
    ensures SwitchLanguageUrl("/x", "ro") == "/ro/x"
  {
    StripLocaleSegment("ro", "/x");
    assert "/ro/x" == "/" + "ro" + "/x";
    assert !StartsWith("/x", "/ro/") && !StartsWith("/x", "/en-US/");
  }

  class SidebarPanel {
    var isCollapsed: bool
    const currentLocale: string

    constructor(locale: string)
      ensures !isCollapsed && currentLocale == locale
    {
      isCollapsed := false;
      currentLocale := locale;
    }

    /** `toggleSidebar`: flip the flag and emit its new value; two toggles restore it. */
    method ToggleSidebar() returns (emitted: bool)
      modifies this
      ensures isCollapsed == !old(isCollapsed) && emitted == isCollapsed
    {
      isCollapsed := !isCollapsed;
      emitted := isCollapsed;
    }

    /** `switchLanguage`: the `href` assigned for the current `pathname`. */
    method SwitchLanguage(pathname: string, locale: string) returns (href: string)
      ensures href == SwitchLanguageUrl(pathname, locale)
    {
      href := StripLocale(pathname);
      if locale != DefaultLocale {
        href := "/" + locale + href;
      }
    }
  }
}
