/** The language modal offered to visitors who look Swiss: the detection heuristic, the
    persisted "modal seen" flag that gates it, and the bookkeeping of closing it. */
module SwissModal {
  import opened Common
  import I18n

  /** The substrings that mark a Swiss referrer or page address. */
  const SwissIndicators: seq<string> := ["ch", "schweiz", "suisse", "svizzera", "switzerland"]
  /** The localStorage entry recording that the modal was seen. */
  const SeenKey: string := "swiss-modal-seen"
  const SwissTimezone: string := "Europe/Zurich"

  /** The lower-cased locale marks the user Swiss. */
  predicate SwissLocale(browserLanguage: string)
  {
    var lang := ToLower(browserLanguage);
    Contains(lang, "ch") || lang == "de-ch"
  }

  /** Some indicator occurs in the lower-cased referrer or page address. */
  predicate SwissAddress(referrer: string, url: string)
  {
    exists i :: 0 <= i < |SwissIndicators| &&
      (Contains(ToLower(referrer), SwissIndicators[i]) || Contains(ToLower(url), SwissIndicators[i]))
  }

  /** The three signals `detectSwissUser` consults, in order. */
  predicate SwissSignal(browserLanguage: string, timezone: string, referrer: string, url: string)
  {
    SwissLocale(browserLanguage) || timezone == SwissTimezone || SwissAddress(referrer, url)
  }

  /** The `de-ch` comparison adds nothing to the substring test. */
  lemma SwissLocaleIsSubstring(browserLanguage: string)
    ensures SwissLocale(browserLanguage) <==> Contains(ToLower(browserLanguage), "ch")
  {
    var lang := ToLower(browserLanguage);
    if lang == "de-ch" {
      assert OccursAt(lang, "ch", 3);
      ContainsIff(lang, "ch");
    }
  }

  /** `schweiz` contains `ch`, so the address test is the four remaining indicators. */
  lemma SchweizRedundant(s: string)
    ensures (exists i :: 0 <= i < |SwissIndicators| && Contains(s, SwissIndicators[i])) <==>
              Contains(s, "ch") || Contains(s, "suisse") || Contains(s, "svizzera") || Contains(s, "switzerland")
  {
    if Contains(s, "schweiz") {
      assert OccursAt("schweiz", "ch", 1);
      ContainsIff("schweiz", "ch");
      ContainsTransitive(s, "schweiz", "ch");
    }
    if Contains(s, "ch") { assert SwissIndicators[0] == "ch"; }
    if Contains(s, "suisse") { assert SwissIndicators[2] == "suisse"; }
    if Contains(s, "svizzera") { assert SwissIndicators[3] == "svizzera"; }
    if Contains(s, "switzerland") { assert SwissIndicators[4] == "switzerland"; }
  }

  /** Any page served from a `.ch` address reads as Swiss. */
  lemma SwissDomain(referrer: string, host: string)
    ensures SwissAddress(referrer, host + ".ch")
  {
    var lower := ToLower(host + ".ch");
    assert lower[|lower| - 2..] == "ch";
    assert OccursAt(lower, "ch", |lower| - 2);
    ContainsIff(lower, "ch");
    assert SwissIndicators[0] == "ch";
  }

  class LanguageModal {
    /** The translation engine; its `storage` is the page's localStorage. */
    const i18n: I18n.Engine
    var isSwissUser: bool
    var modalShown: bool
    /** How many modal elements are in the document. */
    var modals: nat
    /** How many Escape listeners `createModal` has attached to the document. */
    var escapeListeners: nat
    /** The languages carried by the `swissLanguageSelected` events dispatched so far. */
    var selections: seq<Option<string>>

    constructor (i18n: I18n.Engine)
      ensures this.i18n == i18n
      ensures !isSwissUser && !modalShown && modals == 0 && escapeListeners == 0 && selections == []
    {
      this.i18n := i18n;
      isSwissUser := false;
      modalShown := false;
      modals := 0;
      escapeListeners := 0;
      selections := [];
    }

    /** `detectSwissUser`, with `navigator.language`, the resolved time zone, `document.referrer`
        and `location.href` as inputs; it only ever sets the flag. */
    method DetectSwissUser(browserLanguage: string, timezone: string, referrer: string, url: string)
      modifies this`isSwissUser
      ensures isSwissUser == (old(isSwissUser) || SwissSignal(browserLanguage, timezone, referrer, url))
    {
      var lang := ToLower(browserLanguage);
      if Contains(lang, "ch") || lang == "de-ch" {
        isSwissUser := true;
        return;
      }
      if timezone == SwissTimezone {
        isSwissUser := true;
        return;
      }
      if SwissAddress(referrer, url) {
        isSwissUser := true;
      }
    }

    /** `hasSeenModal`. */
    predicate HasSeenModal()
      reads this, i18n
    {
      Lookup(i18n.storage, SeenKey) == Some("true")
    }

    /** `markModalSeen`. */
    method MarkModalSeen()
      modifies i18n`storage, this`modalShown
      ensures i18n.storage == old(i18n.storage)[SeenKey := "true"]
      ensures modalShown && HasSeenModal()
    {
      i18n.storage := i18n.storage[SeenKey := "true"];
      modalShown := true;
    }

    /** `resetModalStatus`. */
    method ResetModalStatus()
      modifies i18n`storage, this`modalShown
      ensures i18n.storage == old(i18n.storage) - {SeenKey}
      ensures !modalShown && !HasSeenModal()
    {
      i18n.storage := i18n.storage - {SeenKey};
      modalShown := false;
    }

    /** `createModal` followed by `showModal`: one more modal element with its Escape listener. */
    method OpenModal()
      modifies this`modals, this`escapeListeners
      ensures modals == old(modals) + 1 && escapeListeners == old(escapeListeners) + 1
    {
      modals := modals + 1;
      escapeListeners := escapeListeners + 1;
    }

    /** `init`: detect, then open the modal only for a Swiss user who has not seen it. */
    method Init(browserLanguage: string, timezone: string, referrer: string, url: string)
      modifies this`isSwissUser, this`modals, this`escapeListeners
      ensures isSwissUser == (old(isSwissUser) || SwissSignal(browserLanguage, timezone, referrer, url))
      ensures var opens := isSwissUser && !HasSeenModal();
              modals == old(modals) + (if opens then 1 else 0) &&
              escapeListeners == old(escapeListeners) + (if opens then 1 else 0)
    {
      DetectSwissUser(browserLanguage, timezone, referrer, url);
      if isSwissUser && !HasSeenModal() {
        OpenModal();
      }
    }

    /** `hideModal(languageSelected)`: with a modal in the document, remove it, mark it seen
        and, after a selection, report the current language; without one, nothing. */
    method HideModal(languageSelected: bool)
      modifies this`modals, this`modalShown, this`selections, i18n`storage
      ensures old(modals) == 0 ==>
                modals == 0 && modalShown == old(modalShown) &&
                selections == old(selections) && i18n.storage == old(i18n.storage)
      ensures old(modals) > 0 ==>
                && modals == old(modals) - 1
                && modalShown && HasSeenModal()
                && i18n.storage == old(i18n.storage)[SeenKey := "true"]
                && selections == old(selections) + (if languageSelected then [i18n.currentLanguage] else [])
    {
      if modals == 0 {
        return;
      }
      modals := modals - 1;
      MarkModalSeen();
      if languageSelected {
        selections := selections + [i18n.currentLanguage];
      }
    }

    /** A key press reaching every Escape listener: each closes the modal only while it has not
        been marked shown, so at most the first one acts. */
    method KeyDown(key: string)
      modifies this`modals, this`modalShown, this`selections, i18n`storage
      ensures key != "Escape" || old(modalShown) || escapeListeners == 0 || old(modals) == 0 ==>
                modals == old(modals) && modalShown == old(modalShown) &&
                selections == old(selections) && i18n.storage == old(i18n.storage)
      ensures key == "Escape" && !old(modalShown) && escapeListeners > 0 && old(modals) > 0 ==>
                && modals == old(modals) - 1 && modalShown && HasSeenModal()
                && i18n.storage == old(i18n.storage)[SeenKey := "true"]
                && selections == old(selections)
    {
      var n := 0;
      while n < escapeListeners
        invariant 0 <= n <= escapeListeners
        invariant n == 0 || key != "Escape" || old(modalShown) || old(modals) == 0 ==>
                    modals == old(modals) && modalShown == old(modalShown) &&
                    selections == old(selections) && i18n.storage == old(i18n.storage)
        invariant n > 0 && key == "Escape" && !old(modalShown) && old(modals) > 0 ==>
                    && modals == old(modals) - 1 && modalShown
                    && i18n.storage == old(i18n.storage)[SeenKey := "true"]
                    && selections == old(selections)
      {
        if key == "Escape" && !modalShown {
          HideModal(false);
        }
        n := n + 1;
      }
    }

    /** A click on a language option: switch the engine's language (a no-op for the current
        or an unsupported one), then close the modal as a selection. */
    method ChooseLanguage(language: string)
      modifies this`modals, this`modalShown, this`selections, i18n
      ensures var switched := Some(language) != old(i18n.currentLanguage) && I18n.IsLanguageSupported(language);
              var written := if switched then old(i18n.storage)[I18n.LanguageStorageKey := language] else old(i18n.storage);
              i18n.storage == if old(modals) > 0 then written[SeenKey := "true"] else written
      ensures Some(language) != old(i18n.currentLanguage) && I18n.IsLanguageSupported(language) ==>
                && i18n.currentLanguage == Some(language)
                && i18n.documentLang == language
                && i18n.query == I18n.QueryFor(old(i18n.query), language)
                && i18n.nodes == I18n.NodesAfterApply(old(i18n.nodes), i18n.translations, Some(language))
                && i18n.metaContent == I18n.MetaContentAfter(old(i18n.metaContent), i18n.translations, Some(language))
                && i18n.title == I18n.TitleAfter(old(i18n.title), i18n.translations, Some(language))
                && i18n.buttons == I18n.Highlighted(old(i18n.buttons), Some(language))
                && i18n.displays == I18n.DisplaysFor(old(i18n.displays), Some(language))
                && i18n.events == old(i18n.events) + [language]
                && i18n.translations == old(i18n.translations)
      ensures Some(language) == old(i18n.currentLanguage) || !I18n.IsLanguageSupported(language) ==>
                && i18n.currentLanguage == old(i18n.currentLanguage)
                && i18n.documentLang == old(i18n.documentLang)
                && i18n.query == old(i18n.query)
                && i18n.nodes == old(i18n.nodes)
                && i18n.metaContent == old(i18n.metaContent)
                && i18n.title == old(i18n.title)
                && i18n.buttons == old(i18n.buttons)
                && i18n.displays == old(i18n.displays)
                && i18n.events == old(i18n.events)
                && i18n.translations == old(i18n.translations)
      ensures old(modals) > 0 ==>
                modals == old(modals) - 1 && modalShown && HasSeenModal() &&
                selections == old(selections) + [i18n.currentLanguage]
      ensures old(modals) == 0 ==> modals == 0 && modalShown == old(modalShown) && selections == old(selections)
    {
      i18n.SwitchLanguage(language);
      HideModal(true);
    }

    /** `forceShow`. */
    method ForceShow()
      modifies this`isSwissUser, this`modalShown, this`modals, this`escapeListeners, i18n`storage
      ensures isSwissUser && !modalShown && !HasSeenModal()
      ensures i18n.storage == old(i18n.storage) - {SeenKey}
      ensures modals == old(modals) + 1 && escapeListeners == old(escapeListeners) + 1
    {
      isSwissUser := true;
      ResetModalStatus();
      OpenModal();
    }
  }
}
