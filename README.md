# Blacklodge site logic in Dafny

A model of the behaviour behind the Blacklodge event-agency website. The site is plain
browser JavaScript. Its logic lives in six places, and each has one Dafny module here:

- `Common` (`common.dfy`): `Option`, map lookup, JavaScript truthiness of strings, and the string operations the site relies on: `split`, `join`, `includes`, `trim`, `toLowerCase` and `toUpperCase`.
- `I18n` (`i18n.dfy`): the translation engine of `assets/js/i18n.js`.
  - The dictionary tree, and dotted-key resolution with a fallback language.
  - Language detection.
  - The `I18n` object: `currentLanguage`, `localStorage`, the URL query, the document `lang`, the title and meta tags, the tagged nodes, the language switcher and the `languageChanged` events.
- `EmailJS` (`emailjs.dfy`): `assets/js/emailjs-config-env.js`.
  - The sliding-window and cooldown rate limiter over stored timestamps.
  - The precedence in which the mail-relay credentials are loaded.
  - The "configured" test.
- `ContactForm` (`contact_form.dfy`): the contact-form submit handler of `assets/js/main.js`.
  - Folding the form entries into a record.
  - The email pattern.
  - The ordered gate: honeypot, rate limit, required fields, consent, email.
  - The template parameters with their German defaults.
  - The button, reset and delivery bookkeeping.
- `SwissModal` (`swiss_modal.dfy`): `SwissLanguageModal`.
  - Detecting a Swiss visitor.
  - The persisted "modal seen" flag.
  - The open and hide bookkeeping.
  - The Escape-key guard.
- `Navigation` (`navigation.dfy`): `NavigationComponent`.
  - The mobile-menu and language-dropdown flags, including the flip made once per dropdown.
  - Label fallback, link classes and `aria-current`.
  - The current-language display.
- `InstagramFeed` (`instagram_feed.dfy`): `assets/js/instagram-feed.js`.
  - Caption truncation.
  - Keeping the first six posts.
  - The loading, empty and error views.

The browser is turned into inputs and state.
- `navigator.language`, the timezone, the referrer, the page URL and the clock are parameters. Time is an integer count of milliseconds.
- `localStorage` and the URL query are `map<string, string>` fields.
- A DOM node that may be missing is an `Option` or a `bool` field.
- A fetch or send that may fail is an `Option` or a `bool` parameter that carries its outcome.

Functions specify the pure parts. Classes specify the objects whose fields change:
- `I18n.Engine`;
- `EmailJS.Config` and `EmailJS.RateLimiter`;
- `ContactForm.Form`;
- `SwissModal.LanguageModal`;
- `Navigation.NavigationComponent`;
- `InstagramFeed.Feed`.

Each method's postconditions describe the state it leaves, mostly through a specification function. Lemmas then prove the site's promises about those functions.

Several behaviours of the code differ from a first reading of it:
- A browser locale `de-CH` gives `de`, not `ch`. `detectLanguage` tries the supported primary subtag before the Swiss substring test, so the `ch` branch fires only for locales such as `rm-CH` (`I18n.DetectSwissSupported`, `I18n.DetectSwissRegion`).
- The `=== 'de-ch'` alternatives in `detectLanguage` and `detectSwissUser` are already covered by the `includes('ch')` beside them (`SwissModal.SwissLocaleIsSubstring`). Likewise, the indicator `schweiz` is covered by `ch` (`SwissModal.SchweizRedundant`).
- `toggleLanguageDropdown` flips one shared flag once per dropdown element. With the desktop and the mobile switcher both rendered, the flag ends where it started (`Navigation.TwoDropdownsDisagree`).
- When the feed's fetch fails, the error view is replaced at once, because `init` always calls `renderPosts` after `loadPosts`. After `init`, the container never shows the error view (`InstagramFeed.Feed.Init`).
- A form with a plain `services` field followed by a `services[]` entry makes `push` throw before any check runs (`ContactForm.Outcome.Crashed`). A plain `services` string that is not empty makes `join` throw inside the send, and that attempt counts as failed (`ContactForm.TemplateParamsShape`, `ContactForm.SentIff`).
- `hideModal` calls `modal.querySelector('#modal-content')` on the result of `getElementById` before its own `if (modal)` test (`assets/js/components/SwissLanguageModal.js:242-245`). Without a modal element it therefore throws a `TypeError`. The model treats such a call as doing nothing.

## Model

| member | source | states |
|---|---|---|
| I18n.SupportedLanguageSet | assets/js/i18n.js:41-97 | detection and `setLanguage` always settle on one of `de`, `en`, `fr`, `ch`, and `setLanguage` keeps a requested language iff it is one of them |
| I18n.WalkFromNothing | assets/js/i18n.js:153-156 | once a walk has failed, every further segment keeps it failed |
| I18n.WalkAppend | assets/js/i18n.js:150-158 | walking a path in two pieces is walking it in one |
| I18n.ResolveCases | assets/js/i18n.js:146-169 | the active walk's string wins; a walk that ends on a sub-tree gives the key and the fallback is not tried; a failed active walk gives the fallback's string at the same path, or else the key |
| I18n.WalkReachesLeaf | assets/js/i18n.js:150-158 | a walk that ends on a string ends on a string stored somewhere in that tree |
| I18n.ResolveOrigin | assets/js/i18n.js:146-169 | the result is never undefined: it is the key, or a string of the active dictionary, or a string of the fallback dictionary |
| I18n.ResolveSegments | assets/js/i18n.js:147-168 | for a key joined from dot-free segments, resolution walks exactly those segments, first in the active language and then in the fallback |
| I18n.ResolveFallbackFloor | assets/js/i18n.js:154-168 | when the active walk fails (missing key, string in the middle, no active dictionary), the fallback's string is returned, or the key when the fallback also fails |
| I18n.Engine.GetTranslation | assets/js/i18n.js:146-169 | the two nested loops compute exactly the tree resolution with fallback |
| I18n.DetectLanguage | assets/js/i18n.js:41-69 | the detected language is always supported |
| I18n.DetectPrecedence | assets/js/i18n.js:41-69 | precedence: supported URL `lang`, then supported stored `blacklodge-language`, then a supported primary subtag, then `ch` whenever the lower-cased locale contains `ch`, then `de` |
| I18n.DetectSwissSupported | assets/js/i18n.js:55-59 | `de-CH` gives `de` and `fr-CH` gives `fr`: the primary subtag comes before the Swiss test |
| I18n.DetectSwissRegion | assets/js/i18n.js:61-65 | `rm-CH` gives `ch` |
| I18n.DetectOtherRegion | assets/js/i18n.js:67-68 | `it-IT` falls through to the default `de` |
| I18n.Coerce | assets/js/i18n.js:95-97 | an unsupported language becomes `de` and a supported one is kept |
| I18n.QueryForLang | assets/js/i18n.js:200-210 | after the update, the `lang` parameter is absent iff the language is `de` and otherwise equals it; other parameters are untouched |
| I18n.Engine.UpdateURL | assets/js/i18n.js:200-210 | the query becomes the updated query of the language |
| I18n.Engine.StoreAndApply | assets/js/i18n.js:94-108 | current language, stored preference and document `lang` equal the coerced language; nodes, title and meta tags are translated into it |
| I18n.Engine.SetLanguage | assets/js/i18n.js:94-112 | current language, stored preference, document `lang` and URL `lang` all equal the coerced language; nodes, title and meta tags are translated into it |
| I18n.Engine.SwitchLanguage | assets/js/i18n.js:233-248 | an unchanged or unsupported language changes nothing and sends no event; otherwise the language is set, the switcher updated, and exactly one `languageChanged` event carrying the language is sent |
| I18n.Engine.SwitchLanguageTwice | assets/js/i18n.js:233-248 | a second identical switch is a no-op: at most one event in total, and exactly one iff the language was supported and not current |
| I18n.Write | assets/js/i18n.js:124-137 | writing a translation leaves the node's key, tag and input type as they were |
| I18n.NodeAfterApply | assets/js/i18n.js:115-139 | an empty translation leaves the node alone; otherwise submit inputs get `value`, other INPUT/TEXTAREA get `placeholder`, else `title` when present, else `textContent` |
| I18n.ApplyIdempotent | assets/js/i18n.js:115-139 | applying the translations twice is applying them once |
| I18n.SlotRulesDiffer | assets/js/i18n.js:124-137 | the page-wide pass and `translateElement` pick different targets exactly for a non-submit node whose INPUT/TEXTAREA tag disagrees with having a `placeholder` attribute |
| I18n.Engine.ApplyTranslations | assets/js/i18n.js:115-143 | without a dictionary for the current language nothing changes; otherwise every node is translated and the meta tags are updated |
| I18n.Engine.TranslateElement | assets/js/i18n.js:261-282 | a missing element changes nothing; otherwise only the nodes of its subtree are translated, by the placeholder-attribute rule |
| I18n.NodesAfterSubtree | assets/js/i18n.js:261-282 | every node outside the subtree is untouched; every node keeps its key and tag; a node whose translation is empty stays as it was |
| I18n.WriteMetaTagsEach | assets/js/i18n.js:184-191 | each meta tag that exists gets its field's content when that content is truthy and keeps its content otherwise; no tag is added |
| I18n.MetaTagSources | assets/js/i18n.js:172-191 | after the update a truthy `meta.description` is the content of the existing `description`, `og:description` and `twitter:description` tags, a truthy `meta.title` that of `og:title` and `twitter:title`; `keywords` keeps its content; no tag is added or removed |
| I18n.MetaProjection | assets/js/i18n.js:172-197 | without a `meta` branch nothing changes; the title changes only when `meta.title` is truthy |
| I18n.Engine.UpdateMetaTags | assets/js/i18n.js:172-197 | the loop over the five tags leaves exactly the content described by the meta-tag update |
| I18n.Highlighted | assets/js/i18n.js:213-222 | every language button keeps its `data-lang` and is active iff it equals the current language |
| I18n.SwitcherLastWins | assets/js/i18n.js:213-230 | a second switcher update overrides the first for buttons and displays; the button of the new language is active, and all active buttons carry the same language |
| I18n.DisplayCodeIsUpper | assets/js/i18n.js:227 | the displayed code is the upper-cased language (`ch` gives `CH`) |
| I18n.DisplaysFor | assets/js/i18n.js:224-229 | with a current language every display shows its upper-cased code; without one (`toUpperCase` on `null` throws) the displays are untouched |
| I18n.Engine.UpdateLanguageSwitcher | assets/js/i18n.js:213-230 | the buttons are highlighted for the current language and the displays show its code |
| I18n.LoadedFallback | assets/js/i18n.js:72-91 | after loading there is always a `de` dictionary; when it failed to load it is `{error: 'Translation error'}`, so `error` resolves to `Translation error` |
| I18n.Engine.Init | assets/js/i18n.js:18-38 | without a failure the detected language is set, stored, written to the document and the URL, and shown by the switcher; when `localStorage` throws only the dictionaries are loaded and the language falls back to `de`; when `replaceState` throws the detected language is stored and applied, the URL and the switcher are not updated, and the language falls back to `de`; no event is sent |
| I18n.Engine.ShowLanguage | assets/js/i18n.js:26-30 | the coerced language is stored and applied; without a `replaceState` failure it becomes current, reaches the URL and the switcher; with one, URL and switcher stay as they were and the current language is `de` |
| I18n.Engine.constructor | assets/js/i18n.js:3-15 | there is no current language and no dictionary yet |
| EmailJS.DefaultCooldown | assets/js/emailjs-config-env.js:106-131 | with the shipped limits (on, 3 per hour, 20 minutes) a fourth submission within the hour is refused, so is one within 20 minutes of an earlier one, and otherwise the submission is allowed |
| EmailJS.Recent | assets/js/emailjs-config-env.js:110-114 | a submission is recent iff it is less than one hour old |
| EmailJS.Max | assets/js/emailjs-config-env.js:123 | the newest submission is in the list and no submission is newer |
| EmailJS.CanSubmitIff | assets/js/emailjs-config-env.js:106-131 | submitting is allowed iff limiting is disabled, or fewer than the maximum are recent and every recent submission is at least the cooldown old |
| EmailJS.RecordBlocksImmediateRetry | assets/js/emailjs-config-env.js:122-137 | with limiting on and a positive cooldown (or a maximum of one), a second submission at the same instant is refused |
| EmailJS.AllowedKeepsWindow | assets/js/emailjs-config-env.js:110-137 | recording an allowed submission never puts more than the maximum into the window |
| EmailJS.StaleSubmissionsIgnored | assets/js/emailjs-config-env.js:110-130 | submissions an hour old or older never block |
| EmailJS.NextAllowedTime | assets/js/emailjs-config-env.js:144-152 | none for an empty list; otherwise the newest submission plus the cooldown |
| EmailJS.NextAllowedTimeClearsCooldown | assets/js/emailjs-config-env.js:122-152 | from the next allowed time on, the cooldown no longer blocks |
| EmailJS.RateLimiter.CanSubmitAt | assets/js/emailjs-config-env.js:106-131 | under the limits configured at that moment: allowed iff limiting is off, or fewer than the maximum submissions fall in the last hour and none of them is younger than the cooldown |
| EmailJS.RateLimiter.RecordSubmission | assets/js/emailjs-config-env.js:133-137 | the stored list becomes the old list with `now` appended: one longer, earlier entries unchanged and none pruned |
| EmailJS.RateLimiter.GetNextAllowedTime | assets/js/emailjs-config-env.js:144-152 | none iff nothing is stored; otherwise some stored submission plus the cooldown, with no stored submission plus the cooldown after it |
| EmailJS.Override | assets/js/emailjs-config-env.js:49-80 | each credential ends up as one of its sources or as it was |
| EmailJS.OverridePrecedence | assets/js/emailjs-config-env.js:49-80 | a non-empty stored value beats a non-empty URL value, which beats a defined global; with none of them the field is unchanged |
| EmailJS.OverrideIdempotent | assets/js/emailjs-config-env.js:49-80 | loading twice from the same sources is loading once |
| EmailJS.StoredCredentialsConfigure | assets/js/emailjs-config-env.js:49-80 | a credential is set after loading iff a truthy stored value, a truthy URL value, a defined non-empty global, or (with no global) a non-empty current value supplies it; a stored value always wins; a defined empty global with no other source leaves it unset |
| EmailJS.Config.Load | assets/js/emailjs-config-env.js:43-98 | each of the three fields is overridden independently, in the order global, URL, storage; afterwards the configuration is complete iff every credential is supplied by some source, so three stored credentials always complete it |
| ContactForm.CollectFormData | assets/js/main.js:204-215 | the loop over the entries computes the fold of the entries |
| ContactForm.FoldStaysFailed | assets/js/main.js:209-211 | once `push` has thrown on a string `services`, the whole fold fails |
| ContactForm.FoldLastWins | assets/js/main.js:212-214 | for every key other than `services[]` and `services`, the record holds the last value given for it |
| ContactForm.FoldCollectsServices | assets/js/main.js:209-211 | without a plain `services` field, every `services[]` entry is collected in order, and none leaves `services` unset |
| ContactForm.LastValue | assets/js/main.js:212-214 | the last value is one of the entries for that key, and there is none iff the key never occurs |
| ContactForm.EmailCheckIsPattern | assets/js/main.js:245-246 | the email test accepts exactly the strings of the form word `@` word `.` word, where words are non-empty and free of white space and `@` |
| ContactForm.EmailCheckSound | assets/js/main.js:245-246 | every accepted string matches the pattern |
| ContactForm.EmailCheckComplete | assets/js/main.js:245-246 | every string matching the pattern is accepted |
| ContactForm.EmailSingleAt | assets/js/main.js:245-246 | an accepted address has exactly one `@` |
| ContactForm.EmailAccepted | assets/js/main.js:245-246 | `info@blacklodge.ch` is accepted |
| ContactForm.EmailWithoutDotRejected | assets/js/main.js:245-246 | `info@blacklodge` is refused |
| ContactForm.EmailWithSpaceRejected | assets/js/main.js:245-246 | `in fo@blacklodge.ch` is refused |
| ContactForm.OrDefault | assets/js/main.js:293-300 | a present non-empty field is kept and anything else becomes the default |
| ContactForm.TemplateParamsShape | assets/js/main.js:290-302 | `from_name` is first name, space, last name; `from_email` and `reply_to` are the email; no optional field is ever blank; no services give `Keine ausgewählt`; no message gives `Keine zusätzlichen Informationen`; building fails only for a non-empty plain `services` string |
| ContactForm.TemplateFieldsCarried | assets/js/main.js:293-300 | phone, event type, date, location, guests and budget are each the form's non-empty value or `Nicht angegeben`, the message its value or `Keine zusätzlichen Informationen`; a list of services is joined with `, ` |
| ContactForm.ServicesLineMentionsEach | assets/js/main.js:298 | every chosen service appears in the joined services line |
| ContactForm.JoinMentionsEach | assets/js/main.js:298 | every item appears in the joined string |
| ContactForm.ServiceValuesMembers | assets/js/main.js:209-211 | a value is collected as a service iff some `services[]` entry carries it |
| ContactForm.FormReachesRelay | assets/js/main.js:204-302 | without a plain `services` entry the parameters always build; every ticked service is named in the services line, none ticked gives `Keine ausgewählt`; phone and message carry their last non-empty entry or the fallback |
| ContactForm.SentIff | assets/js/main.js:204-280 | a message is sent iff the fold succeeds, the honeypot is blank, the limiter allows, first name, last name and email are present, consent is given, the email matches, the parameters build and the channel accepts |
| ContactForm.HoneypotFirst | assets/js/main.js:218-223 | a filled honeypot stops everything as spam, before the rate limit |
| ContactForm.RateLimitSecond | assets/js/main.js:226-231 | after a blank honeypot, a refusing limiter stops everything |
| ContactForm.BlankHoneypotPasses | assets/js/main.js:218 | a honeypot of white space only is not spam |
| ContactForm.Form.Submit | assets/js/main.js:200-280 | the outcome is the gate's decision; only after a send does the limiter record the clock read after the awaited send; the button text is restored, and re-enabled after any send attempt; the form is reset on spam and on success; only a sent message is delivered |
| ContactForm.Form.constructor | assets/js/main.js:251-255 | the button starts enabled with its text and nothing is delivered |
| SwissModal.SwissLocaleIsSubstring | assets/js/components/SwissLanguageModal.js:42-46 | the locale test is exactly "the lower-cased locale contains `ch`" |
| SwissModal.SchweizRedundant | assets/js/components/SwissLanguageModal.js:15-17 | one of the five indicators occurs iff `ch`, `suisse`, `svizzera` or `switzerland` occurs |
| SwissModal.SwissDomain | assets/js/components/SwissLanguageModal.js:56-62 | a page served from a `.ch` host is Swiss |
| SwissModal.LanguageModal.DetectSwissUser | assets/js/components/SwissLanguageModal.js:40-68 | Swiss afterwards iff Swiss before or locale, timezone `Europe/Zurich`, referrer or URL says so; never set back to false |
| SwissModal.LanguageModal.MarkModalSeen | assets/js/components/SwissLanguageModal.js:80-83 | stores `true` under `swiss-modal-seen`, so the modal counts as seen, and sets `modalShown` |
| SwissModal.LanguageModal.ResetModalStatus | assets/js/components/SwissLanguageModal.js:294-297 | removes the stored flag and clears `modalShown` |
| SwissModal.LanguageModal.Init | assets/js/components/SwissLanguageModal.js:23-35 | the modal opens, with its Escape listener, iff the visitor is Swiss and has not seen it |
| SwissModal.LanguageModal.OpenModal | assets/js/components/SwissLanguageModal.js:88-235 | one more open modal and one more Escape listener |
| SwissModal.LanguageModal.HideModal | assets/js/components/SwissLanguageModal.js:241-289 | with a modal open: one fewer, marked seen, and a selection recorded only when a language was chosen |
| SwissModal.LanguageModal.KeyDown | assets/js/components/SwissLanguageModal.js:207-211 | Escape with `modalShown` false and a modal open closes exactly one: one fewer modal, marked shown, the seen flag stored and nothing else stored, no selection; any other key, Escape once shown, no listener or no modal changes nothing |
| SwissModal.LanguageModal.ChooseLanguage | assets/js/components/SwissLanguageModal.js:177-191 | the engine changes exactly as a language switch changes it (nothing for the current or an unsupported language); storage gains only the preference and, with a modal open, the seen flag; an open modal is hidden with the current language recorded as the selection |
| SwissModal.LanguageModal.ForceShow | assets/js/components/SwissLanguageModal.js:302-307 | the seen flag is removed and nothing else in storage changes; the visitor is Swiss, the modal is not marked shown, and one more modal opens with its Escape listener |
| SwissModal.LanguageModal.constructor | assets/js/components/SwissLanguageModal.js:8-18 | not Swiss, not shown, no modal open |
| Navigation.DefaultTextCases | assets/js/components/NavigationComponent.js:360-369 | the five navigation keys map to their German labels and any other key to itself |
| Navigation.RenderNavLinks | assets/js/components/NavigationComponent.js:64-95 | one view per desktop link |
| Navigation.RenderMobileNavLinks | assets/js/components/NavigationComponent.js:211-235 | one view per mobile link |
| Navigation.NavLinkChoice | assets/js/components/NavigationComponent.js:73-90 | the button class beats the active class; a plain link is active iff its key is the current page; `aria-current` only on that link, so on at most one |
| Navigation.ContactPageKeepsButton | assets/js/components/NavigationComponent.js:73-90 | on the contact page the contact link keeps its button look but carries `aria-current` |
| Navigation.MobileLinkChoice | assets/js/components/NavigationComponent.js:211-235 | a mobile link is active and carries `aria-current` iff its key is the current page |
| Navigation.TwoDropdownsDisagree | assets/js/components/NavigationComponent.js:322-328 | with both switchers rendered (lines 47 and 199) the flag returns to its start, and the two dropdowns end opposite |
| Navigation.NavigationComponent.ToggleMobileMenu | assets/js/components/NavigationComponent.js:300-306 | flips the flag only when the menu exists, and the menu is hidden iff the flag is false |
| Navigation.NavigationComponent.CloseMobileMenu | assets/js/components/NavigationComponent.js:311-317 | when the menu exists the flag is false and the menu hidden |
| Navigation.NavigationComponent.CloseMobileMenuTwice | assets/js/components/NavigationComponent.js:311-317 | closing twice is closing once |
| Navigation.NavigationComponent.ToggleLanguageDropdown | assets/js/components/NavigationComponent.js:322-328 | the flag is flipped once per dropdown, and dropdown i is hidden iff the flag is false after the (i+1)-th flip |
| Navigation.NavigationComponent.CloseLanguageDropdown | assets/js/components/NavigationComponent.js:333-339 | every dropdown is hidden and the flag is false |
| Navigation.NavigationComponent.UpdateLanguageDisplay | assets/js/components/NavigationComponent.js:344-353 | every current-language display shows the upper-cased current code; no other state of the engine changes |
| Navigation.NavigationComponent.constructor | assets/js/components/NavigationComponent.js:8-12 | menu and dropdown start closed |
| InstagramFeed.TruncateText | assets/js/instagram-feed.js:125-129 | absent or empty text gives the empty string; text within the limit is unchanged; longer text is its first `maxLength` characters, trimmed, plus `...` |
| InstagramFeed.TruncateBounds | assets/js/instagram-feed.js:125-129 | the result is at most `maxLength + 3` long, and a shortened text is a piece of the original's first `maxLength` characters followed by `...` |
| InstagramFeed.SelectPosts | assets/js/instagram-feed.js:56 | at most six posts are kept, all six when there are that many |
| InstagramFeed.SelectPostsOrder | assets/js/instagram-feed.js:56-62 | the kept posts are the first ones in order, with their fields carried over and a missing caption emptied |
| InstagramFeed.Rendered | assets/js/instagram-feed.js:65-76 | the empty state shows iff there are no posts; otherwise one card per post |
| InstagramFeed.CardTextBounds | assets/js/instagram-feed.js:86-110 | every card's `alt` is within 53 characters and its caption within 103 |
| InstagramFeed.Feed.LoadPosts | assets/js/instagram-feed.js:25-63 | no token empties the posts; a good answer keeps the selected posts; a failure shows the error view, or throws when there is no container; loading ends in every case |
| InstagramFeed.Feed.ShowError | assets/js/instagram-feed.js:131-145 | the container shows the error view |
| InstagramFeed.Feed.RenderPosts | assets/js/instagram-feed.js:65-76 | the container shows the rendering of the posts |
| InstagramFeed.Feed.Init | assets/js/instagram-feed.js:18-23 | without a container nothing happens; otherwise loading ends, the posts are rendered, and the error view never remains |
| InstagramFeed.Feed.constructor | assets/js/instagram-feed.js:2-16 | no posts, not loading, container untouched |
| Common.ContainsIff | assets/js/components/SwissLanguageModal.js:60 | `includes` holds iff the piece occurs at some position |
| Common.JoinSplit | assets/js/i18n.js:147 | joining the pieces of a split with the same separator gives back the string |
| Common.SplitJoin | assets/js/i18n.js:147 | splitting a join of separator-free pieces gives back the pieces |
| Common.TrimInfix | assets/js/main.js:218 | a trimmed string is a piece of the original, and it is empty iff the original is all white space |

## Left out

- Fetching the dictionaries, `emailjs.send` and the Formspree `fetch` are asynchronous network calls. Only their outcome is modelled: a per-language dictionary that may be missing, and a send that is accepted or not.
- The timers that re-apply translations and the DOMContentLoaded wiring of buttons and listeners are event plumbing. The 500 ms wait in the feed's `loadPosts` is left out for the same reason.
- `history.replaceState`, `URL` and `URLSearchParams` are browser APIs. The query is a map, and the path and hash are not modelled.
- The HTML strings built by the switcher, the navigation, the modal and the feed cards are not modelled. Only the parts a behaviour depends on are kept: link classes, `aria-current`, labels, card texts, and the active and hidden flags.
- `createModal`'s call to `translateElement`, the modal's fade-out timer and DOM removal, and its `swissLanguageSelected` event payload are not modelled. A selection is recorded as the current language.
- `alert`, `console` output, the wait time in minutes shown by the rate-limit alert, and the Formspree `_subject` line are messages to the user.
- `toLocaleDateString` and `new Date(post.timestamp)` are left out because the model has no calendar. A card does not carry its date.
- Malformed JSON under `blacklodge_form_submissions` would make `JSON.parse` throw. The model stores a list or nothing.
- Keys inherited through JavaScript prototypes (`toString` as a dictionary key) are not modelled. Dictionaries are plain maps.
- A build-time global explicitly set to `null` cannot be told apart from an absent one, because both are `None`.
- `toLowerCase` and `toUpperCase` map ASCII letters only. `trim` and `\s` use the full ECMAScript white-space set.
- InstagramFeed.Feed.LoadPosts: the posts of a good answer are taken as a list of records. A payload without `data`, which throws inside the `try`, is folded into the failure case.
- SwissModal.LanguageModal.HideModal: a call without a modal element is modelled as doing nothing. In the code `modal.querySelector` runs on `null` at line 243 of `assets/js/components/SwissLanguageModal.js`, before the `if (modal)` guard at line 245, and throws.
- InstagramFeed.TruncateText: lengths are counted in Unicode characters, while JavaScript's `length` and `substring` count UTF-16 code units. For text with characters beyond U+FFFF the code cuts earlier and can split a surrogate pair: thirty U+1F389 with a limit of 50 are kept whole here and cut in the code.
- InstagramFeed.CardTextBounds: the bounds of 53 and 103 are in Unicode characters, not UTF-16 code units, for the same reason.
- I18n.Engine.SwitchLanguage: outside `init` an exception from `localStorage` or `replaceState` is not caught, and the model does not describe it. The switch is modelled as completing.
- Writing `textContent` replaces an element's children, which detaches any nested `[data-i18n]` node. The model keeps a flat list of tagged nodes and goes on translating such nodes.
- Dictionary values that are numbers, booleans, arrays or `null` have no form in the dictionary tree. Only strings and objects are modelled.
- SwissModal.LanguageModal.Init: the modal is opened at once. The code waits 500 ms first (`assets/js/components/SwissLanguageModal.js:30-33`).
