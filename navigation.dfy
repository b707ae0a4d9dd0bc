/** The site navigation: the link lists with their class and `aria-current` choice, the label
    fallbacks, and the open/closed state of the mobile menu and the language dropdowns. */
module Navigation {
  import opened Common
  import I18n

  /** One entry of a link list. */
  datatype NavLink = NavLink(key: string, href: string, i18nKey: string, isButton: bool)

  /** One rendered `<a>` element. */
  datatype LinkView = LinkView(href: string, classes: string, i18nKey: string, ariaCurrent: bool, text: string)

  /** The desktop links; only the contact link is drawn as a button. */
  const DesktopLinks: seq<NavLink> := [
    NavLink("home", "index.html", "navigation.home", false),
    NavLink("services", "index.html#services", "navigation.services", false),
    NavLink("catalog", "index.html#katalog", "navigation.catalog", false),
    NavLink("social", "index.html#social", "navigation.social", false),
    NavLink("contact", "kontakt.html", "navigation.contact", true)]

  /** The mobile links: the same pages, none drawn as a button. */
  const MobileLinks: seq<NavLink> := [
    NavLink("home", "index.html", "navigation.home", false),
    NavLink("services", "index.html#services", "navigation.services", false),
    NavLink("catalog", "index.html#katalog", "navigation.catalog", false),
    NavLink("social", "index.html#social", "navigation.social", false),
    NavLink("contact", "kontakt.html", "navigation.contact", false)]

  const BaseClasses: string := "px-3 py-2 text-sm font-medium transition-colors duration-200"
  const ButtonClasses: string := BaseClasses + " bg-amber-600 text-white rounded-full hover:bg-amber-700 transform hover:scale-105"
  const ActiveClasses: string := BaseClasses + " text-amber-600 border-b-2 border-amber-600"
  const PlainClasses: string := BaseClasses + " text-gray-700 hover:text-amber-600"
  const MobileActiveClasses: string := "text-amber-600 bg-amber-50 block px-3 py-2 rounded-md text-base font-medium border-l-4 border-amber-600"
  const MobilePlainClasses: string := "text-gray-700 hover:text-amber-600 hover:bg-gray-50 block px-3 py-2 rounded-md text-base font-medium transition-colors"

  /** `getDefaultText`: the built-in label of a navigation key, or the key itself. */
  function DefaultText(key: string): string
  {
    var defaults := map[
      "navigation.home" := "Home",
      "navigation.services" := "Services",
      "navigation.catalog" := "Katalog",
      "navigation.social" := "Social Media",
      "navigation.contact" := "Kontakt"];
    if key in defaults && defaults[key] != "" then defaults[key] else key
  }

  /** The five navigation keys get their labels; every other key is its own label. */
  lemma DefaultTextCases(key: string)
    ensures DefaultText("navigation.home") == "Home"
    ensures DefaultText("navigation.services") == "Services"
    ensures DefaultText("navigation.catalog") == "Katalog"
    ensures DefaultText("navigation.social") == "Social Media"
    ensures DefaultText("navigation.contact") == "Kontakt"
    ensures key !in {"navigation.home", "navigation.services", "navigation.catalog", "navigation.social", "navigation.contact"} ==>
              DefaultText(key) == key
    ensures DefaultText(key) != ""  || key == ""
  {
  }

  /** The class choice of `renderNavLinks`: the button style first, then the active style. */
  function DesktopClasses(link: NavLink, currentPage: string): string
  {
    if link.isButton then ButtonClasses
    else if currentPage == link.key then ActiveClasses
    else PlainClasses
  }

  function View(link: NavLink, classes: string, currentPage: string): LinkView
  {
    LinkView(link.href, classes, link.i18nKey, currentPage == link.key, DefaultText(link.i18nKey))
  }

  /** `renderNavLinks(currentPage)`, one view per link. */
  function RenderNavLinks(currentPage: string): (r: seq<LinkView>)
    ensures |r| == |DesktopLinks|
  {
    seq(|DesktopLinks|, i requires 0 <= i < |DesktopLinks| =>
      View(DesktopLinks[i], DesktopClasses(DesktopLinks[i], currentPage), currentPage))
  }

  /** `renderMobileNavLinks(currentPage)`, one view per link. */
  function RenderMobileNavLinks(currentPage: string): (r: seq<LinkView>)
    ensures |r| == |MobileLinks|
  {
    seq(|MobileLinks|, i requires 0 <= i < |MobileLinks| =>
      View(MobileLinks[i], if currentPage == MobileLinks[i].key then MobileActiveClasses else MobilePlainClasses, currentPage))
  }

  /** The link keys are distinct. */
  lemma LinkKeysDistinct()
    ensures forall i, j :: 0 <= i < j < |DesktopLinks| ==> DesktopLinks[i].key != DesktopLinks[j].key
    ensures forall i, j :: 0 <= i < j < |MobileLinks| ==> MobileLinks[i].key != MobileLinks[j].key
  {
  }

  /** The button style beats the active style; `aria-current` marks exactly the link of the
      current page, so at most one link carries it; every label is the built-in fallback. */
  lemma NavLinkChoice(currentPage: string)
    ensures forall i :: 0 <= i < |DesktopLinks| && DesktopLinks[i].isButton ==> RenderNavLinks(currentPage)[i].classes == ButtonClasses
    ensures forall i :: 0 <= i < |DesktopLinks| && !DesktopLinks[i].isButton ==>
              (RenderNavLinks(currentPage)[i].classes == ActiveClasses <==> DesktopLinks[i].key == currentPage)
    ensures forall i :: 0 <= i < |DesktopLinks| ==> (RenderNavLinks(currentPage)[i].ariaCurrent <==> DesktopLinks[i].key == currentPage)
    ensures forall i, j ::
              0 <= i < |DesktopLinks| && 0 <= j < |DesktopLinks| &&
              RenderNavLinks(currentPage)[i].ariaCurrent && RenderNavLinks(currentPage)[j].ariaCurrent
              ==> i == j
    ensures forall i :: 0 <= i < |DesktopLinks| ==> RenderNavLinks(currentPage)[i].text == DefaultText(DesktopLinks[i].i18nKey)
  {
    LinkKeysDistinct();
  }

  /** On the contact page the desktop contact link stays a button but is still marked current. */
  lemma ContactPageKeepsButton()
    ensures RenderNavLinks("contact")[4].classes == ButtonClasses
    ensures RenderNavLinks("contact")[4].ariaCurrent
    ensures forall i :: 0 <= i < 4 ==> RenderNavLinks("contact")[i].classes == PlainClasses
  {
  }

  /** The mobile list marks the current page with both its style and `aria-current`. */
  lemma MobileLinkChoice(currentPage: string)
    ensures forall i :: 0 <= i < |MobileLinks| ==>
              (RenderMobileNavLinks(currentPage)[i].ariaCurrent <==> MobileLinks[i].key == currentPage) &&
              (RenderMobileNavLinks(currentPage)[i].classes == MobileActiveClasses <==> MobileLinks[i].key == currentPage)
  {
  }

  /** The shared dropdown flag after `n` flips from `start`. */
  function FlagAfter(start: bool, n: nat): bool
  {
    if n % 2 == 0 then start else !start
  }

  /** The page renders the language switcher twice, once for desktop and once in the mobile menu. */
  const RenderedDropdowns: nat := 2

  /** With both switchers rendered, a toggle leaves the flag where it was and the two dropdowns
      in opposite states: the first is hidden exactly when the flag was set. */
  lemma TwoDropdownsDisagree(start: bool)
    ensures FlagAfter(start, RenderedDropdowns) == start
    ensures !FlagAfter(start, 1) == start
    ensures !FlagAfter(start, 2) == !start
  {
  }

  class NavigationComponent {
    const i18n: I18n.Engine?
    var isMobileMenuOpen: bool
    var isLanguageDropdownOpen: bool
    /** Whether the `.mobile-menu` element is hidden; `None` when there is no such element. */
    var mobileMenuHidden: Option<bool>
    /** Whether each `.language-dropdown` element is hidden, in document order. */
    var dropdownHidden: seq<bool>

    constructor (i18n: I18n.Engine?, mobileMenuHidden: Option<bool>, dropdownHidden: seq<bool>)
      ensures this.i18n == i18n && !isMobileMenuOpen && !isLanguageDropdownOpen
      ensures this.mobileMenuHidden == mobileMenuHidden && this.dropdownHidden == dropdownHidden
    {
      this.i18n := i18n;
      isMobileMenuOpen := false;
      isLanguageDropdownOpen := false;
      this.mobileMenuHidden := mobileMenuHidden;
      this.dropdownHidden := dropdownHidden;
    }

    /** `toggleMobileMenu`: flips the flag only when the menu exists, and hides the menu
        exactly when the flag ends false. */
    method ToggleMobileMenu()
      modifies this`isMobileMenuOpen, this`mobileMenuHidden
      ensures old(mobileMenuHidden).None? ==> isMobileMenuOpen == old(isMobileMenuOpen) && mobileMenuHidden.None?
      ensures old(mobileMenuHidden).Some? ==>
                isMobileMenuOpen == !old(isMobileMenuOpen) && mobileMenuHidden == Some(!isMobileMenuOpen)
    {
      if mobileMenuHidden.Some? {
        isMobileMenuOpen := !isMobileMenuOpen;
        mobileMenuHidden := Some(!isMobileMenuOpen);
      }
    }

    /** `closeMobileMenu`. */
    method CloseMobileMenu()
      modifies this`isMobileMenuOpen, this`mobileMenuHidden
      ensures old(mobileMenuHidden).None? ==> isMobileMenuOpen == old(isMobileMenuOpen) && mobileMenuHidden.None?
      ensures old(mobileMenuHidden).Some? ==> !isMobileMenuOpen && mobileMenuHidden == Some(true)
    {
      if mobileMenuHidden.Some? {
        isMobileMenuOpen := false;
        mobileMenuHidden := Some(true);
      }
    }

    /** Closing twice is closing once. */
    method CloseMobileMenuTwice()
      modifies this`isMobileMenuOpen, this`mobileMenuHidden
      ensures old(mobileMenuHidden).Some? ==> !isMobileMenuOpen && mobileMenuHidden == Some(true)
      ensures old(mobileMenuHidden).None? ==> isMobileMenuOpen == old(isMobileMenuOpen) && mobileMenuHidden.None?
    {
      CloseMobileMenu();
      ghost var once := (isMobileMenuOpen, mobileMenuHidden);
      CloseMobileMenu();
      assert (isMobileMenuOpen, mobileMenuHidden) == once;
    }

    /** `toggleLanguageDropdown`: the shared flag flips once per dropdown, and each dropdown is
        hidden exactly when the flag is false right after its own flip. */
    method ToggleLanguageDropdown()
      modifies this`isLanguageDropdownOpen, this`dropdownHidden
      ensures |dropdownHidden| == |old(dropdownHidden)|
      ensures isLanguageDropdownOpen == FlagAfter(old(isLanguageDropdownOpen), |dropdownHidden|)
      ensures forall i :: 0 <= i < |dropdownHidden| ==> dropdownHidden[i] == !FlagAfter(old(isLanguageDropdownOpen), i + 1)
    {
      var i := 0;
      while i < |dropdownHidden|
        invariant 0 <= i <= |dropdownHidden| == |old(dropdownHidden)|
        invariant isLanguageDropdownOpen == FlagAfter(old(isLanguageDropdownOpen), i)
        invariant forall j :: 0 <= j < i ==> dropdownHidden[j] == !FlagAfter(old(isLanguageDropdownOpen), j + 1)
        modifies this`isLanguageDropdownOpen, this`dropdownHidden
      {
        isLanguageDropdownOpen := !isLanguageDropdownOpen;
        dropdownHidden := dropdownHidden[i := !isLanguageDropdownOpen];
        i := i + 1;
      }
    }

    /** `closeLanguageDropdown`. */
    method CloseLanguageDropdown()
      modifies this`isLanguageDropdownOpen, this`dropdownHidden
      ensures !isLanguageDropdownOpen
      ensures |dropdownHidden| == |old(dropdownHidden)|
      ensures forall i :: 0 <= i < |dropdownHidden| ==> dropdownHidden[i]
    {
      var i := 0;
      while i < |dropdownHidden|
        invariant 0 <= i <= |dropdownHidden| == |old(dropdownHidden)|
        invariant forall j :: 0 <= j < i ==> dropdownHidden[j]
        modifies this`dropdownHidden
      {
        dropdownHidden := dropdownHidden[i := true];
        i := i + 1;
      }
      isLanguageDropdownOpen := false;
    }

    /** `updateLanguageDisplay`: every `.current-language` display shows the engine's code in
        upper case; nothing happens without an engine, and a `null` language writes nothing. */
    method UpdateLanguageDisplay()
      modifies i18n
      ensures i18n != null ==> i18n.currentLanguage == old(i18n.currentLanguage)
      ensures i18n != null ==>
                && i18n.translations == old(i18n.translations) && i18n.storage == old(i18n.storage)
                && i18n.query == old(i18n.query) && i18n.documentLang == old(i18n.documentLang)
                && i18n.title == old(i18n.title) && i18n.metaContent == old(i18n.metaContent)
                && i18n.nodes == old(i18n.nodes) && i18n.buttons == old(i18n.buttons)
                && i18n.events == old(i18n.events)
      ensures i18n != null ==> i18n.displays == I18n.DisplaysFor(old(i18n.displays), i18n.currentLanguage)
      ensures i18n != null && i18n.currentLanguage.Some? ==>
                forall k :: 0 <= k < |i18n.displays| ==> i18n.displays[k] == ToUpper(i18n.currentLanguage.value)
    {
      if i18n == null || i18n.currentLanguage.None? {
        return;
      }
      var code := i18n.currentLanguage.value;
      var k := 0;
      while k < |i18n.displays|
        invariant 0 <= k <= |i18n.displays| == |old(i18n.displays)|
        invariant forall j :: 0 <= j < k ==> i18n.displays[j] == I18n.DisplayCode(code)
        invariant forall j :: k <= j < |i18n.displays| ==> i18n.displays[j] == old(i18n.displays)[j]
        modifies i18n`displays
      {
        i18n.displays := i18n.displays[k := if code == "ch" then "CH" else ToUpper(code)];
        k := k + 1;
      }
      I18n.DisplayCodeIsUpper(code);
    }
  }
}
