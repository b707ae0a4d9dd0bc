/** The translation engine of the site: dictionaries per language, dotted-key
    resolution with a fallback language, language detection, and the page state
    (storage, URL query, document language, translated nodes, meta tags, language
    controls) that switching the language keeps consistent. */
module I18n {
  import opened Common

  /** A translation dictionary: JSON objects become branches, strings become leaves. */
  datatype Node = Leaf(text: string) | Branch(children: map<string, Node>)

  const DefaultLanguage: string := "de"
  const FallbackLanguage: string := "de"
  const SupportedLanguages: seq<string> := ["de", "en", "fr", "ch"]
  /** The localStorage entry holding the chosen language. */
  const LanguageStorageKey: string := "blacklodge-language"
  /** The URL query parameter holding the chosen language. */
  const LangParam: string := "lang"
  /** The placeholder dictionary recorded when the fallback language fails to load. */
  const ErrorDictionary: Node := Branch(map["error" := Leaf("Translation error")])

  predicate IsLanguageSupported(language: string)
  {
    language in SupportedLanguages
  }

  /** Every language detection or `setLanguage` settles on is one of the four site
      languages, whatever the URL, the stored preference and the browser say. */
  lemma SupportedLanguageSet(urlLang: Option<string>, storedLang: Option<string>, browserLanguage: string, requested: string)
    ensures DetectLanguage(urlLang, storedLang, browserLanguage) in {"de", "en", "fr", "ch"}
    ensures Coerce(requested) in {"de", "en", "fr", "ch"}
    ensures Coerce(requested) == requested <==> requested in {"de", "en", "fr", "ch"}
  {
  }

  // ---------------------------------------------------------------------------
  // Resolving dotted keys

  /** JavaScript truthiness of a dictionary value: only the empty string is falsy. */
  predicate Truthy(n: Node)
  {
    n.Branch? || n.text != ""
  }

  /** The string a dictionary value becomes when it is assigned to a DOM property. */
  function Stringify(n: Node): string
  {
    if n.Leaf? then n.text else "[object Object]"
  }

  /** One step of the walk: `t[k]` when `t` is a JSON object that has `k`, failure otherwise. */
  function Step(t: Option<Node>, k: string): Option<Node>
  {
    if t.Some? && t.value.Branch? && k in t.value.children then Some(t.value.children[k]) else None
  }

  /** The walk along `keys`, segment by segment; `None` once any step fails. */
  function Walk(t: Option<Node>, keys: seq<string>): Option<Node>
    decreases |keys|
  {
    if keys == [] then t else Walk(Step(t, keys[0]), keys[1..])
  }

  /** A failed walk stays failed. */
  lemma {:induction false} WalkFromNothing(keys: seq<string>)
    ensures Walk(None, keys) == None
    decreases |keys|
  {
    if keys != [] {
      WalkFromNothing(keys[1..]);
    }
  }

  /** Walking a concatenation is walking the first part, then the second. */
  lemma {:induction false} WalkAppend(t: Option<Node>, a: seq<string>, b: seq<string>)
    ensures Walk(t, a + b) == Walk(Walk(t, a), b)
    decreases |a|
  {
    if a == [] {
      assert a + b == b;
    } else {
      assert (a + b)[0] == a[0] && (a + b)[1..] == a[1..] + b;
      WalkAppend(Step(t, a[0]), a[1..], b);
    }
  }
  /** A walk that has failed on a prefix of the path fails on the whole path. */
  lemma WalkFailsFrom(t: Option<Node>, keys: seq<string>, n: int)
    requires 0 <= n <= |keys| && Walk(t, keys[..n]) == None
    ensures Walk(t, keys) == None
  {
    WalkAppend(t, keys[..n], keys[n..]);
    assert keys[..n] + keys[n..] == keys;
    WalkFromNothing(keys[n..]);
  }


  /** The dictionary loaded for `language`, if any (a `null` language has none). */
  function Dictionary(translations: map<string, Node>, language: Option<string>): Option<Node>
  {
    if language.Some? && language.value in translations then Some(translations[language.value]) else None
  }

  /** What `getTranslation(key)` returns: the leaf reached in the active dictionary;
      the key when that walk ends on a sub-tree; after a failed walk, the fallback
      dictionary's leaf at the same path; the key when nothing better exists. */
  function Resolve(translations: map<string, Node>, current: Option<string>, key: string): string
  {
    var keys := Split(key, '.');
    match Walk(Dictionary(translations, current), keys)
    case Some(n) => if n.Leaf? then n.text else key
    case None =>
      match Walk(Dictionary(translations, Some(FallbackLanguage)), keys)
      case Some(Leaf(s)) => s
      case _ => key
  }

  /** The cases of resolution: a completed active walk decides alone (a sub-tree gives the
      key, and the fallback is not consulted); a failed one defers to the fallback walk. */
  lemma ResolveCases(translations: map<string, Node>, current: Option<string>, key: string)
    ensures var keys := Split(key, '.');
            var active := Walk(Dictionary(translations, current), keys);
            var fallback := Walk(Dictionary(translations, Some(FallbackLanguage)), keys);
            && (active.Some? && active.value.Leaf? ==> Resolve(translations, current, key) == active.value.text)
            && (active.Some? && active.value.Branch? ==> Resolve(translations, current, key) == key)
            && (active.None? && fallback.Some? && fallback.value.Leaf? ==>
                  Resolve(translations, current, key) == fallback.value.text)
            && (active.None? && (fallback.None? || fallback.value.Branch?) ==>
                  Resolve(translations, current, key) == key)
  {
  }

  /** `s` is a string leaf somewhere in the dictionary `n`. */
  predicate HasLeaf(n: Node, s: string)
    decreases n
  {
    match n
    case Leaf(t) => t == s
    case Branch(m) => exists k :: k in m && HasLeaf(m[k], s)
  }

  /** A leaf reached by a walk is a leaf of the dictionary the walk started from. */
  lemma {:induction false} WalkReachesLeaf(n: Node, keys: seq<string>, s: string)
    requires Walk(Some(n), keys) == Some(Leaf(s))
    ensures HasLeaf(n, s)
    decreases |keys|
  {
    if keys == [] {
    } else {
      var next := Step(Some(n), keys[0]);
      if next.None? {
        WalkFromNothing(keys[1..]);
      } else {
        WalkReachesLeaf(next.value, keys[1..], s);
        assert keys[0] in n.children && n.children[keys[0]] == next.value;
      }
    }
  }

  /** A resolved text is never invented: it is the key itself or a leaf of the active
      or of the fallback dictionary. */
  lemma ResolveOrigin(translations: map<string, Node>, current: Option<string>, key: string)
    ensures var r := Resolve(translations, current, key);
            || r == key
            || (Dictionary(translations, current).Some? && HasLeaf(Dictionary(translations, current).value, r))
            || (FallbackLanguage in translations && HasLeaf(translations[FallbackLanguage], r))
  {
    var keys := Split(key, '.');
    var active := Dictionary(translations, current);
    var fallback := Dictionary(translations, Some(FallbackLanguage));
    var r := Resolve(translations, current, key);
    if r != key {
      var wa := Walk(active, keys);
      if wa.Some? {
        if active.None? { WalkFromNothing(keys); }
        WalkReachesLeaf(active.value, keys, r);
      } else {
        if fallback.None? { WalkFromNothing(keys); }
        WalkReachesLeaf(fallback.value, keys, r);
      }
    }
  }

  /** A key written as dot-free segments resolves along exactly those segments. */
  lemma ResolveSegments(translations: map<string, Node>, current: Option<string>, segments: seq<string>)
    requires |segments| >= 1
    requires forall p :: p in segments ==> '.' !in p
    ensures var key := Join(segments, ".");
            var active := Walk(Dictionary(translations, current), segments);
            var fallback := Walk(Dictionary(translations, Some(FallbackLanguage)), segments);
            Resolve(translations, current, key) ==
              if active.Some? then (if active.value.Leaf? then active.value.text else key)
              else if fallback.Some? && fallback.value.Leaf? then fallback.value.text
              else key
  {
    SplitJoin(segments, '.');
  }

  /** A key missing from the active dictionary but present as a leaf in the fallback
      dictionary resolves to the fallback text; missing from both, it resolves to itself. */
  lemma ResolveFallbackFloor(translations: map<string, Node>, current: Option<string>, key: string)
    requires Walk(Dictionary(translations, current), Split(key, '.')).None?
    ensures var fallback := Walk(Dictionary(translations, Some(FallbackLanguage)), Split(key, '.'));
            && (fallback.Some? && fallback.value.Leaf? ==> Resolve(translations, current, key) == fallback.value.text)
            && (fallback.None? ==> Resolve(translations, current, key) == key)
  {
  }

  // ---------------------------------------------------------------------------
  // Language detection

  /** `navigator.language.split('-')[0]`. */
  function PrimarySubtag(locale: string): string
  {
    Split(locale, '-')[0]
  }

  /** `detectLanguage`: a supported URL `lang` parameter, else a supported stored
      preference, else a supported primary subtag of the browser locale, else `ch` when
      the lower-cased locale mentions `ch`, else the default language. */
  function DetectLanguage(urlLang: Option<string>, storedLang: Option<string>, browserLanguage: string): (r: string)
    ensures IsLanguageSupported(r)
  {
    if urlLang.Some? && urlLang.value != "" && IsLanguageSupported(urlLang.value) then urlLang.value
    else if storedLang.Some? && storedLang.value != "" && IsLanguageSupported(storedLang.value) then storedLang.value
    else if IsLanguageSupported(PrimarySubtag(browserLanguage)) then PrimarySubtag(browserLanguage)
    else if Contains(ToLower(browserLanguage), "ch") || ToLower(browserLanguage) == "de-ch" then "ch"
    else DefaultLanguage
  }

  /** The detection order, step by step. */
  lemma DetectPrecedence(urlLang: Option<string>, storedLang: Option<string>, browserLanguage: string)
    ensures var r := DetectLanguage(urlLang, storedLang, browserLanguage);
            var fromUrl := urlLang.Some? && IsLanguageSupported(urlLang.value);
            var fromStore := storedLang.Some? && IsLanguageSupported(storedLang.value);
            var primary := PrimarySubtag(browserLanguage);
            var swiss := Contains(ToLower(browserLanguage), "ch");
            && (fromUrl ==> r == urlLang.value)
            && (!fromUrl && fromStore ==> r == storedLang.value)
            && (!fromUrl && !fromStore && IsLanguageSupported(primary) ==> r == primary)
            && (!fromUrl && !fromStore && !IsLanguageSupported(primary) && swiss ==> r == "ch")
            && (!fromUrl && !fromStore && !IsLanguageSupported(primary) && !swiss ==> r == DefaultLanguage)
  {
    var lower := ToLower(browserLanguage);
    if lower == "de-ch" {
      assert lower[3..5] == "ch";
      assert OccursAt(lower, "ch", 3);
      ContainsIff(lower, "ch");
    }
  }

  /** The primary subtag is everything before the first hyphen. */
  lemma PrimarySubtagPrefix(locale: string, subtag: string, region: string)
    requires locale == subtag + "-" + region
    requires '-' !in subtag
    ensures PrimarySubtag(locale) == subtag
  {
    SplitAfterPiece(subtag, '-', region);
  }

  /** The Swiss step only answers when the primary subtag is unsupported: a Swiss German
      or Swiss French browser (`de-CH`, `fr-CH`) keeps its own language. */
  lemma DetectSwissSupported()
    ensures DetectLanguage(None, None, "de-CH") == "de"
    ensures DetectLanguage(None, None, "fr-CH") == "fr"
  {
    PrimarySubtagPrefix("de-CH", "de", "CH");
    PrimarySubtagPrefix("fr-CH", "fr", "CH");
  }

  /** An unsupported subtag with a Swiss region (`rm-CH`) gets `ch`. */
  lemma DetectSwissRegion()
    ensures DetectLanguage(None, None, "rm-CH") == "ch"
  {
    PrimarySubtagPrefix("rm-CH", "rm", "CH");
    var lower := ToLower("rm-CH");
    assert lower[3] == 'c' && lower[4] == 'h';
    assert lower[3..5] == "ch";
    assert OccursAt(lower, "ch", 3);
    ContainsIff(lower, "ch");
  }

  /** An unsupported subtag without a Swiss region (`it-IT`) gets the default language. */
  lemma DetectOtherRegion()
    ensures DetectLanguage(None, None, "it-IT") == "de"
  {
    PrimarySubtagPrefix("it-IT", "it", "IT");
    var lower := ToLower("it-IT");
    assert forall j :: 0 <= j < |lower| ==> lower[j] != 'c' by {
      forall j | 0 <= j < |lower| ensures lower[j] != 'c' {
        assert lower[j] == LowerChar("it-IT"[j]);
      }
    }
    forall i | 0 <= i <= |lower| - 2 ensures !OccursAt(lower, "ch", i) {
      assert lower[i..i + 2][0] == lower[i];
    }
    ContainsIff(lower, "ch");
  }

  /** `setLanguage` turns an unsupported code into the default language. */
  function Coerce(language: string): (r: string)
    ensures IsLanguageSupported(r)
    ensures IsLanguageSupported(language) ==> r == language
    ensures !IsLanguageSupported(language) ==> r == DefaultLanguage
  {
    if IsLanguageSupported(language) then language else DefaultLanguage
  }

  /** The URL query after `updateURL(language)`: no `lang` parameter for the default
      language, `lang=language` otherwise. */
  function QueryFor(query: map<string, string>, language: string): map<string, string>
  {
    if language == DefaultLanguage then query - {LangParam} else query[LangParam := language]
  }

  /** The `lang` parameter is absent exactly for the default language, otherwise it holds
      the language, and every other parameter is kept as it was. */
  lemma QueryForLang(query: map<string, string>, language: string)
    ensures LangParam in QueryFor(query, language) <==> language != DefaultLanguage
    ensures LangParam in QueryFor(query, language) ==> QueryFor(query, language)[LangParam] == language
    ensures forall p :: p != LangParam ==>
              (p in QueryFor(query, language) <==> p in query) &&
              (p in query ==> QueryFor(query, language)[p] == query[p])
  {
  }

  // ---------------------------------------------------------------------------
  // Translatable nodes and the page

  /** A page element carrying a `data-i18n` key: its tag, its `type`, its `placeholder`
      and `title` attributes, and the properties a translation can be written to. */
  datatype Element = Element(
    key: string, tagName: string, inputType: string,
    hasPlaceholder: bool, hasTitle: bool,
    value: string, placeholder: string, title: string, textContent: string)

  /** The property a translation is written to. */
  datatype Slot = ValueSlot | PlaceholderSlot | TitleSlot | TextSlot

  /** The choice made by `applyTranslations`. */
  function PageSlot(e: Element): Slot
  {
    if e.tagName == "INPUT" && e.inputType == "submit" then ValueSlot
    else if e.tagName == "INPUT" || e.tagName == "TEXTAREA" then PlaceholderSlot
    else if e.hasTitle then TitleSlot
    else TextSlot
  }

  /** The choice made by `translateElement`: like `PageSlot`, but a `placeholder`
      attribute rather than the tag selects the placeholder. */
  function SubtreeSlot(e: Element): Slot
  {
    if e.tagName == "INPUT" && e.inputType == "submit" then ValueSlot
    else if e.hasPlaceholder then PlaceholderSlot
    else if e.hasTitle then TitleSlot
    else TextSlot
  }

  /** The two rules disagree exactly on a non-submit INPUT/TEXTAREA without a placeholder
      attribute and on any other element that has one. */
  lemma SlotRulesDiffer(e: Element)
    ensures PageSlot(e) != SubtreeSlot(e) <==>
            !(e.tagName == "INPUT" && e.inputType == "submit") &&
            ((e.tagName == "INPUT" || e.tagName == "TEXTAREA") != e.hasPlaceholder)
  {
  }

  /** Writing `text` to one property; writing `placeholder` or `title` also sets the attribute. */
  function Write(e: Element, slot: Slot, text: string): (w: Element)
    ensures w.key == e.key && w.tagName == e.tagName && w.inputType == e.inputType
  {
    match slot
    case ValueSlot => e.(value := text)
    case PlaceholderSlot => e.(placeholder := text, hasPlaceholder := true)
    case TitleSlot => e.(title := text, hasTitle := true)
    case TextSlot => e.(textContent := text)
  }

  /** An element after one translation pass: untouched when the translation is empty. */
  function Translate(e: Element, slot: Slot, text: string): Element
  {
    if text == "" then e else Write(e, slot, text)
  }

  /** The dictionary of the active language exists and is truthy. */
  predicate HasDictionary(translations: map<string, Node>, current: Option<string>)
  {
    Dictionary(translations, current).Some? && Truthy(Dictionary(translations, current).value)
  }

  /** The nodes after `applyTranslations`: each node with its resolved text in its page slot,
      or all nodes untouched when the active language has no dictionary. */
  function NodesAfterApply(nodes: seq<Element>, translations: map<string, Node>, current: Option<string>): (r: seq<Element>)
    ensures |r| == |nodes|
  {
    if HasDictionary(translations, current) then
      seq(|nodes|, i requires 0 <= i < |nodes| =>
        Translate(nodes[i], PageSlot(nodes[i]), Resolve(translations, current, nodes[i].key)))
    else nodes
  }

  /** The nodes after `translateElement` of a subtree whose descendants are the positions
      in `subtree`. */
  function NodesAfterSubtree(nodes: seq<Element>, translations: map<string, Node>, current: Option<string>, subtree: set<int>): (r: seq<Element>)
    ensures |r| == |nodes|
    ensures forall i :: 0 <= i < |nodes| && i !in subtree ==> r[i] == nodes[i]
    ensures forall i :: 0 <= i < |nodes| ==> r[i].key == nodes[i].key && r[i].tagName == nodes[i].tagName
    ensures forall i :: 0 <= i < |nodes| && i in subtree && Resolve(translations, current, nodes[i].key) == "" ==> r[i] == nodes[i]
  {
    seq(|nodes|, i requires 0 <= i < |nodes| =>
      if i in subtree then Translate(nodes[i], SubtreeSlot(nodes[i]), Resolve(translations, current, nodes[i].key))
      else nodes[i])
  }

  /** What a translation pass writes to a node: the resolved text lands in the property its
      role selects, an empty text leaves the node alone, and no other property changes. */
  lemma NodeAfterApply(nodes: seq<Element>, translations: map<string, Node>, current: Option<string>, i: int)
    requires 0 <= i < |nodes|
    requires HasDictionary(translations, current)
    ensures var e := nodes[i];
            var t := Resolve(translations, current, e.key);
            var r := NodesAfterApply(nodes, translations, current)[i];
            && (t == "" ==> r == e)
            && (t != "" && e.tagName == "INPUT" && e.inputType == "submit" ==> r == e.(value := t))
            && (t != "" && !(e.tagName == "INPUT" && e.inputType == "submit") && (e.tagName == "INPUT" || e.tagName == "TEXTAREA") ==>
                  r == e.(placeholder := t, hasPlaceholder := true))
            && (t != "" && e.tagName != "INPUT" && e.tagName != "TEXTAREA" && e.hasTitle ==> r == e.(title := t))
            && (t != "" && e.tagName != "INPUT" && e.tagName != "TEXTAREA" && !e.hasTitle ==> r == e.(textContent := t))
  {
  }

  /** A second translation pass right after the first changes no node (why the delayed
      re-application passes are not modelled). */
  lemma ApplyIdempotent(nodes: seq<Element>, translations: map<string, Node>, current: Option<string>)
    ensures NodesAfterApply(NodesAfterApply(nodes, translations, current), translations, current)
         == NodesAfterApply(nodes, translations, current)
  {
    var once := NodesAfterApply(nodes, translations, current);
    var twice := NodesAfterApply(once, translations, current);
    if HasDictionary(translations, current) {
      forall i | 0 <= i < |nodes| ensures twice[i] == once[i] {
        var e := nodes[i];
        assert once[i].key == e.key && PageSlot(once[i]) == PageSlot(e);
      }
    }
  }

  /** The meta tags rewritten from the dictionary's `meta` branch, in the order they are
      written, each with the `meta` field it takes its content from. */
  const MetaTags: seq<(string, string)> := [
    ("description", "description"), ("og:title", "title"), ("og:description", "description"),
    ("twitter:title", "title"), ("twitter:description", "description")]

  /** The truthy `meta` branch of the active dictionary, if there is one. */
  function MetaBranch(translations: map<string, Node>, current: Option<string>): Option<Node>
  {
    var d := Dictionary(translations, current);
    if d.Some? && d.value.Branch? && "meta" in d.value.children && Truthy(d.value.children["meta"])
    then Some(d.value.children["meta"]) else None
  }

  /** `meta[field]`, undefined unless `meta` is an object that has it. */
  function MetaField(meta: Node, field: string): Option<Node>
  {
    if meta.Branch? && field in meta.children then Some(meta.children[field]) else None
  }

  /** The text of a field, when the field is truthy. */
  function TruthyField(meta: Node, field: string): Option<string>
  {
    var c := MetaField(meta, field);
    if c.Some? && Truthy(c.value) then Some(Stringify(c.value)) else None
  }

  /** The entries written in turn: a truthy content reaches an existing element. */
  function WriteMetaTags(tags: map<string, string>, meta: Node, entries: seq<(string, string)>): map<string, string>
    decreases |entries|
  {
    if entries == [] then tags
    else
      var prev := WriteMetaTags(tags, meta, entries[..|entries| - 1]);
      var name := entries[|entries| - 1].0;
      var content := TruthyField(meta, entries[|entries| - 1].1);
      if content.Some? && name in prev then prev[name := content.value] else prev
  }

  /** The `content` of the existing meta elements after `updateMetaTags`. */
  function MetaContentAfter(tags: map<string, string>, translations: map<string, Node>, current: Option<string>): map<string, string>
  {
    var meta := MetaBranch(translations, current);
    if meta.None? then tags else WriteMetaTags(tags, meta.value, MetaTags)
  }

  /** The field that feeds the tag `name` among `entries`, if any. */
  function FieldFor(entries: seq<(string, string)>, name: string): Option<string>
  {
    if entries == [] then None
    else if entries[|entries| - 1].0 == name then Some(entries[|entries| - 1].1)
    else FieldFor(entries[..|entries| - 1], name)
  }

  /** With distinct tag names, each existing tag ends up with the truthy content of its
      field, or keeps its old content; no element is added or removed. */
  lemma {:induction false} WriteMetaTagsEach(tags: map<string, string>, meta: Node, entries: seq<(string, string)>)
    requires forall i, j :: 0 <= i < j < |entries| ==> entries[i].0 != entries[j].0
    ensures WriteMetaTags(tags, meta, entries).Keys == tags.Keys
    ensures forall name :: name in tags ==>
              WriteMetaTags(tags, meta, entries)[name] ==
                if FieldFor(entries, name).Some? && TruthyField(meta, FieldFor(entries, name).value).Some?
                then TruthyField(meta, FieldFor(entries, name).value).value else tags[name]
    decreases |entries|
  {
    if entries != [] {
      var init := entries[..|entries| - 1];
      WriteMetaTagsEach(tags, meta, init);
      var last := entries[|entries| - 1];
      forall name | name in tags && name == last.0 ensures FieldFor(init, name).None? {
        FieldForAbsent(init, name);
      }
    }
  }

  lemma {:induction false} FieldForAbsent(entries: seq<(string, string)>, name: string)
    requires forall i :: 0 <= i < |entries| ==> entries[i].0 != name
    ensures FieldFor(entries, name).None?
    decreases |entries|
  {
    if entries != [] {
      FieldForAbsent(entries[..|entries| - 1], name);
    }
  }

  /** `document.title` after `updateMetaTags`. */
  function TitleAfter(title: string, translations: map<string, Node>, current: Option<string>): string
  {
    var meta := MetaBranch(translations, current);
    if meta.Some? && TruthyField(meta.value, "title").Some? then TruthyField(meta.value, "title").value else title
  }

  /** Metadata projection: no meta element is created or removed; a tag changes only when
      its field is truthy, and then holds it; the title changes only for a truthy
      `meta.title`; without a `meta` branch nothing changes. */
  lemma MetaProjection(tags: map<string, string>, title: string, translations: map<string, Node>, current: Option<string>)
    ensures MetaContentAfter(tags, translations, current).Keys == tags.Keys
    ensures MetaBranch(translations, current).None? ==>
              MetaContentAfter(tags, translations, current) == tags && TitleAfter(title, translations, current) == title
    ensures var meta := MetaBranch(translations, current);
            meta.Some? ==>
              forall name :: name in tags ==>
                MetaContentAfter(tags, translations, current)[name] ==
                  if FieldFor(MetaTags, name).Some? && TruthyField(meta.value, FieldFor(MetaTags, name).value).Some?
                  then TruthyField(meta.value, FieldFor(MetaTags, name).value).value else tags[name]
    ensures var meta := MetaBranch(translations, current);
            meta.Some? && MetaField(meta.value, "title") == Some(Leaf("Example")) ==>
              TitleAfter(title, translations, current) == "Example"
    ensures var meta := MetaBranch(translations, current);
            meta.Some? && MetaField(meta.value, "title").None? ==> TitleAfter(title, translations, current) == title
  {
    var meta := MetaBranch(translations, current);
    if meta.Some? {
      WriteMetaTagsEach(tags, meta.value, MetaTags);
    }
  }

  /** After `updateMetaTags` a truthy `meta.description` is the content of the
      `description`, `og:description` and `twitter:description` tags, a truthy
      `meta.title` is the content of `og:title` and `twitter:title`, and a `keywords` tag
      keeps its content. */
  lemma MetaTagSources(tags: map<string, string>, translations: map<string, Node>, current: Option<string>)
    requires MetaBranch(translations, current).Some?
    ensures var meta := MetaBranch(translations, current).value;
            var after := MetaContentAfter(tags, translations, current);
            var d := TruthyField(meta, "description");
            var t := TruthyField(meta, "title");
            && after.Keys == tags.Keys
            && ("description" in tags && d.Some? ==> after["description"] == d.value)
            && ("og:description" in tags && d.Some? ==> after["og:description"] == d.value)
            && ("twitter:description" in tags && d.Some? ==> after["twitter:description"] == d.value)
            && ("og:title" in tags && t.Some? ==> after["og:title"] == t.value)
            && ("twitter:title" in tags && t.Some? ==> after["twitter:title"] == t.value)
            && ("keywords" in tags ==> after["keywords"] == tags["keywords"])
  {
    MetaTagFields();
    WriteMetaTagsEach(tags, MetaBranch(translations, current).value, MetaTags);
  }

  /** The tags fed by each field: `description` feeds three tags, `title` feeds two. */
  lemma MetaTagFields()
    ensures FieldFor(MetaTags, "description") == Some("description")
    ensures FieldFor(MetaTags, "og:description") == Some("description")
    ensures FieldFor(MetaTags, "twitter:description") == Some("description")
    ensures FieldFor(MetaTags, "og:title") == Some("title")
    ensures FieldFor(MetaTags, "twitter:title") == Some("title")
    ensures FieldFor(MetaTags, "keywords").None?
  {
    var m4 := MetaTags[..4];
    var m3 := m4[..3];
    var m2 := m3[..2];
    var m1 := m2[..1];
    assert m4 == [("description", "description"), ("og:title", "title"),
                  ("og:description", "description"), ("twitter:title", "title")];
    assert m3 == [("description", "description"), ("og:title", "title"), ("og:description", "description")];
    assert m2 == [("description", "description"), ("og:title", "title")];
    assert m1 == [("description", "description")];
    assert m1[..0] == [];
    assert FieldFor(m1, "description") == Some("description");
    assert FieldFor(m1, "keywords").None? by { assert FieldFor(m1[..0], "keywords").None?; }
    assert FieldFor(m2, "og:title") == Some("title");
    assert FieldFor(m2, "description") == Some("description");
    assert FieldFor(m2, "keywords").None?;
    assert FieldFor(m3, "description") == Some("description");
    assert FieldFor(m3, "keywords").None?;
    assert FieldFor(m4, "og:title") == Some("title");
    assert FieldFor(m4, "description") == Some("description");
    assert FieldFor(m4, "keywords").None?;
    assert FieldFor(MetaTags, "og:title") == Some("title");
  }

  /** A language button (`.language-btn`) with its `data-lang` and its `active` marker. */
  datatype LanguageButton = LanguageButton(lang: Option<string>, active: bool)

  /** The buttons after `updateLanguageSwitcher`: active exactly when `data-lang` equals
      the current language. */
  function Highlighted(buttons: seq<LanguageButton>, current: Option<string>): (r: seq<LanguageButton>)
    ensures |r| == |buttons|
    ensures forall i :: 0 <= i < |r| ==> r[i].lang == buttons[i].lang && (r[i].active <==> buttons[i].lang == current)
  {
    seq(|buttons|, i requires 0 <= i < |buttons| => buttons[i].(active := buttons[i].lang == current))
  }

  /** The text of a `.current-language` display: `CH` for `ch`, the upper-cased code otherwise. */
  function DisplayCode(language: string): (r: string)
  {
    if language == "ch" then "CH" else ToUpper(language)
  }

  /** The `ch` special case is the upper-casing rule itself. */
  lemma DisplayCodeIsUpper(language: string)
    ensures DisplayCode(language) == ToUpper(language)
  {
    if language == "ch" {
      assert ToUpper("ch") == "CH";
    }
  }

  /** The `.current-language` displays after `updateLanguageSwitcher`; a `null` language
      throws before any display is written. */
  function DisplaysFor(displays: seq<string>, current: Option<string>): (r: seq<string>)
    ensures |r| == |displays|
    ensures current.Some? ==> forall i :: 0 <= i < |r| ==> r[i] == ToUpper(current.value)
    ensures current.None? ==> r == displays
  {
    DisplayCodeIsUpper(if current.Some? then current.value else "");
    if current.Some? then seq(|displays|, i => DisplayCode(current.value)) else displays
  }

  /** The switcher shows only the latest language: a second update overrides the first,
      so it does not depend on the language the controls showed before. */
  lemma SwitcherLastWins(buttons: seq<LanguageButton>, displays: seq<string>, first: Option<string>, second: string)
    ensures Highlighted(Highlighted(buttons, first), Some(second)) == Highlighted(buttons, Some(second))
    ensures DisplaysFor(DisplaysFor(displays, first), Some(second)) == DisplaysFor(displays, Some(second))
    ensures forall i :: 0 <= i < |buttons| && buttons[i].lang == Some(second) ==> Highlighted(buttons, Some(second))[i].active
    ensures var h := Highlighted(buttons, Some(second));
            forall i, j :: 0 <= i < |h| && 0 <= j < |h| && h[i].active && h[j].active ==> buttons[i].lang == buttons[j].lang
  {
    var once := Highlighted(buttons, first);
    var twice := Highlighted(once, Some(second));
    var direct := Highlighted(buttons, Some(second));
    forall i | 0 <= i < |buttons| ensures twice[i] == direct[i] {
      assert once[i].lang == buttons[i].lang;
    }
  }

  /** The dictionaries after `loadTranslations`: each supported language whose document
      was fetched and parsed gets it; a failed fallback language gets the error placeholder;
      other failures leave the language without a dictionary. */
  function Loaded(translations: map<string, Node>, fetched: map<string, Node>): map<string, Node>
  {
    var got := map l | l in fetched && IsLanguageSupported(l) :: fetched[l];
    var failedFallback := if FallbackLanguage in fetched then map[] else map[FallbackLanguage := ErrorDictionary];
    translations + got + failedFallback
  }

  /** After loading the fallback language always has a dictionary; a failed load makes the
      `error` key visible as `Translation error`. */
  lemma LoadedFallback(translations: map<string, Node>, fetched: map<string, Node>, current: Option<string>)
    ensures FallbackLanguage in Loaded(translations, fetched)
    ensures FallbackLanguage !in fetched ==> Loaded(translations, fetched)[FallbackLanguage] == ErrorDictionary
    ensures FallbackLanguage !in fetched && Dictionary(Loaded(translations, fetched), current).None? ==>
              Resolve(Loaded(translations, fetched), current, "error") == "Translation error"
  {
    SplitNoSeparator("error", '.');
    WalkFromNothing(["error"]);
    var t := Loaded(translations, fetched);
    if FallbackLanguage !in fetched {
      assert Walk(Dictionary(t, Some(FallbackLanguage)), ["error"]) == Walk(Some(Leaf("Translation error")), []);
    }
  }

  // ---------------------------------------------------------------------------
  // The engine

  /** Which browser API, if any, throws during `init`: `localStorage` (read during
      detection, written by `setLanguage`) or `history.replaceState` (in `updateURL`). */
  datatype InitFault = NoFault | StorageThrows | HistoryThrows

  class Engine {
    /** `null` until `init` sets a language. */
    var currentLanguage: Option<string>
    var translations: map<string, Node>
    /** localStorage. */
    var storage: map<string, string>
    /** The query parameters of the page URL. */
    var query: map<string, string>
    /** `document.documentElement.lang`. */
    var documentLang: string
    /** `document.title`. */
    var title: string
    /** The `content` of each meta element, by its `name` or `property`. */
    var metaContent: map<string, string>
    /** The `[data-i18n]` elements of the document, in document order. */
    var nodes: seq<Element>
    var buttons: seq<LanguageButton>
    /** The texts of the `.current-language` displays. */
    var displays: seq<string>
    /** The payloads of the `languageChanged` events dispatched so far. */
    var events: seq<string>

    constructor (storage: map<string, string>, query: map<string, string>, documentLang: string, title: string,
                 metaContent: map<string, string>, nodes: seq<Element>, buttons: seq<LanguageButton>, displays: seq<string>)
      ensures this.currentLanguage == None && this.translations == map[] && this.events == []
      ensures this.storage == storage && this.query == query && this.documentLang == documentLang
      ensures this.title == title && this.metaContent == metaContent && this.nodes == nodes
      ensures this.buttons == buttons && this.displays == displays
    {
      this.currentLanguage := None;
      this.translations := map[];
      this.storage := storage;
      this.query := query;
      this.documentLang := documentLang;
      this.title := title;
      this.metaContent := metaContent;
      this.nodes := nodes;
      this.buttons := buttons;
      this.displays := displays;
      this.events := [];
    }

    /** `getTranslation(key)`: walk the active dictionary; on the first failing segment,
        restart the whole walk in the fallback dictionary and give up with the key. */
    method GetTranslation(key: string) returns (r: string)
      ensures r == Resolve(translations, currentLanguage, key)
    {
      var keys := Split(key, '.');
      ghost var active := Dictionary(translations, currentLanguage);
      ghost var fallback := Dictionary(translations, Some(FallbackLanguage));
      var translation := Dictionary(translations, currentLanguage);
      ghost var fellBack := false;
      var i := 0;
      while i < |keys|
        invariant 0 <= i <= |keys|
        invariant !fellBack
        invariant translation == Walk(active, keys[..i])
        invariant i > 0 ==> translation.Some?
      {
        if translation.Some? && translation.value.Branch? && keys[i] in translation.value.children {
          WalkAppend(active, keys[..i], [keys[i]]);
          assert keys[..i] + [keys[i]] == keys[..i + 1];
          translation := Some(translation.value.children[keys[i]]);
          i := i + 1;
        } else {
          // The active walk fails here, so it fails as a whole.
          WalkAppend(active, keys[..i], [keys[i]]);
          assert keys[..i] + [keys[i]] == keys[..i + 1];
          WalkFailsFrom(active, keys, i + 1);
          translation := Dictionary(translations, Some(FallbackLanguage));
          var j := 0;
          while j < |keys|
            invariant 0 <= j <= |keys|
            invariant translation == Walk(fallback, keys[..j])
            invariant j > 0 ==> translation.Some?
          {
            WalkAppend(fallback, keys[..j], [keys[j]]);
            assert keys[..j] + [keys[j]] == keys[..j + 1];
            if translation.Some? && translation.value.Branch? && keys[j] in translation.value.children {
              translation := Some(translation.value.children[keys[j]]);
              j := j + 1;
            } else {
              WalkFailsFrom(fallback, keys, j + 1);
              return key;
            }
          }
          assert keys[..j] == keys;
          fellBack := true;
          break;
        }
      }
      if !fellBack {
        assert keys[..i] == keys;
      }
      r := if translation.Some? && translation.value.Leaf? then translation.value.text else key;
    }

    /** `updateMetaTags`. */
    method UpdateMetaTags()
      modifies this`metaContent, this`title
      ensures metaContent == MetaContentAfter(old(metaContent), translations, currentLanguage)
      ensures title == TitleAfter(old(title), translations, currentLanguage)
    {
      var meta := MetaBranch(translations, currentLanguage);
      if meta.None? {
        return;
      }
      var i := 0;
      while i < |MetaTags|
        invariant 0 <= i <= |MetaTags|
        invariant metaContent == WriteMetaTags(old(metaContent), meta.value, MetaTags[..i])
        modifies this`metaContent
      {
        var (name, field) := MetaTags[i];
        var content := TruthyField(meta.value, field);
        assert MetaTags[..i + 1][..i] == MetaTags[..i];
        if content.Some? && name in metaContent {
          metaContent := metaContent[name := content.value];
        }
        i := i + 1;
      }
      assert MetaTags[..i] == MetaTags;
      var titleText := TruthyField(meta.value, "title");
      if titleText.Some? {
        title := titleText.value;
      }
    }

    /** `applyTranslations`: nothing without an active dictionary; otherwise every
        `[data-i18n]` node, then the meta tags. */
    method ApplyTranslations()
      modifies this`nodes, this`metaContent, this`title
      ensures nodes == NodesAfterApply(old(nodes), translations, currentLanguage)
      ensures HasDictionary(translations, currentLanguage) ==>
                metaContent == MetaContentAfter(old(metaContent), translations, currentLanguage) &&
                title == TitleAfter(old(title), translations, currentLanguage)
      ensures !HasDictionary(translations, currentLanguage) ==> metaContent == old(metaContent) && title == old(title)
    {
      if !HasDictionary(translations, currentLanguage) {
        return;
      }
      var i := 0;
      while i < |nodes|
        invariant 0 <= i <= |nodes| && |nodes| == |old(nodes)|
        invariant forall j :: 0 <= j < i ==>
                    nodes[j] == Translate(old(nodes)[j], PageSlot(old(nodes)[j]), Resolve(translations, currentLanguage, old(nodes)[j].key))
        invariant forall j :: i <= j < |nodes| ==> nodes[j] == old(nodes)[j]
        modifies this`nodes
      {
        var translation := GetTranslation(nodes[i].key);
        if translation != "" {
          nodes := nodes[i := Write(nodes[i], PageSlot(nodes[i]), translation)];
        }
        i := i + 1;
      }
      UpdateMetaTags();
    }

    /** `translateElement(element)`: `None` is a missing element; otherwise the positions of
        the element's `[data-i18n]` descendants. Meta tags are not touched. */
    method TranslateElement(subtree: Option<set<int>>)
      modifies this`nodes
      ensures subtree.None? ==> nodes == old(nodes)
      ensures subtree.Some? ==> nodes == NodesAfterSubtree(old(nodes), translations, currentLanguage, subtree.value)
    {
      if subtree.None? {
        return;
      }
      var i := 0;
      while i < |nodes|
        invariant 0 <= i <= |nodes| && |nodes| == |old(nodes)|
        invariant forall j :: 0 <= j < i ==>
                    nodes[j] == NodesAfterSubtree(old(nodes), translations, currentLanguage, subtree.value)[j]
        invariant forall j :: i <= j < |nodes| ==> nodes[j] == old(nodes)[j]
        modifies this`nodes
      {
        if i in subtree.value {
          var translation := GetTranslation(nodes[i].key);
          if translation != "" {
            nodes := nodes[i := Write(nodes[i], SubtreeSlot(nodes[i]), translation)];
          }
        }
        i := i + 1;
      }
    }

    /** `updateURL(language)`. */
    method UpdateURL(language: string)
      modifies this`query
      ensures query == QueryFor(old(query), language)
    {
      if language == DefaultLanguage {
        query := query - {LangParam};
      } else {
        query := query[LangParam := language];
      }
    }

    /** The steps of `setLanguage(language)` before the URL is rewritten: coerce, then set
        the current language, the stored preference and the document language, and
        translate the page. */
    method StoreAndApply(language: string) returns (c: string)
      modifies this`currentLanguage, this`storage, this`documentLang, this`nodes, this`metaContent, this`title
      ensures c == Coerce(language)
      ensures currentLanguage == Some(c)
      ensures storage == old(storage)[LanguageStorageKey := c]
      ensures documentLang == c
      ensures nodes == NodesAfterApply(old(nodes), translations, Some(c))
      ensures metaContent == MetaContentAfter(old(metaContent), translations, Some(c))
      ensures title == TitleAfter(old(title), translations, Some(c))
    {
      c := language;
      if !IsLanguageSupported(c) {
        c := DefaultLanguage;
      }
      currentLanguage := Some(c);
      storage := storage[LanguageStorageKey := c];
      documentLang := c;
      ApplyTranslations();
      assert !HasDictionary(translations, Some(c)) ==> MetaBranch(translations, Some(c)).None?;
    }

    /** `setLanguage(language)`: coerce, then set the current language, the stored
        preference and the document language, translate the page and rewrite the URL. */
    method SetLanguage(language: string)
      modifies this`currentLanguage, this`storage, this`documentLang, this`nodes, this`metaContent, this`title, this`query
      ensures var c := Coerce(language);
              && currentLanguage == Some(c)
              && storage == old(storage)[LanguageStorageKey := c]
              && documentLang == c
              && nodes == NodesAfterApply(old(nodes), translations, Some(c))
              && metaContent == MetaContentAfter(old(metaContent), translations, Some(c))
              && title == TitleAfter(old(title), translations, Some(c))
              && query == QueryFor(old(query), c)
    {
      var c := StoreAndApply(language);
      UpdateURL(c);
    }

    /** `updateLanguageSwitcher`. */
    method UpdateLanguageSwitcher()
      modifies this`buttons, this`displays
      ensures buttons == Highlighted(old(buttons), currentLanguage)
      ensures displays == DisplaysFor(old(displays), currentLanguage)
    {
      var i := 0;
      while i < |buttons|
        invariant 0 <= i <= |buttons| && |buttons| == |old(buttons)|
        invariant forall j :: 0 <= j < i ==> buttons[j] == Highlighted(old(buttons), currentLanguage)[j]
        invariant forall j :: i <= j < |buttons| ==> buttons[j] == old(buttons)[j]
        modifies this`buttons
      {
        buttons := buttons[i := buttons[i].(active := buttons[i].lang == currentLanguage)];
        i := i + 1;
      }
      if currentLanguage.None? {
        // `this.currentLanguage.toUpperCase()` throws at the first display.
        return;
      }
      var k := 0;
      while k < |displays|
        invariant 0 <= k <= |displays| && |displays| == |old(displays)|
        invariant forall j :: 0 <= j < k ==> displays[j] == DisplayCode(currentLanguage.value)
        invariant forall j :: k <= j < |displays| ==> displays[j] == old(displays)[j]
        modifies this`displays
      {
        displays := displays[k := DisplayCode(currentLanguage.value)];
        k := k + 1;
      }
    }

    /** `switchLanguage(language)`: a no-op for the current or an unsupported language;
        otherwise `setLanguage`, the switcher update and one `languageChanged` event. */
    method SwitchLanguage(language: string)
      modifies this
      ensures Some(language) == old(currentLanguage) || !IsLanguageSupported(language) ==> unchanged(this)
      ensures Some(language) != old(currentLanguage) && IsLanguageSupported(language) ==>
                && currentLanguage == Some(language)
                && storage == old(storage)[LanguageStorageKey := language]
                && documentLang == language
                && query == QueryFor(old(query), language)
                && nodes == NodesAfterApply(old(nodes), translations, Some(language))
                && metaContent == MetaContentAfter(old(metaContent), translations, Some(language))
                && title == TitleAfter(old(title), translations, Some(language))
                && buttons == Highlighted(old(buttons), Some(language))
                && displays == DisplaysFor(old(displays), Some(language))
                && events == old(events) + [language]
                && translations == old(translations)
    {
      if Some(language) != currentLanguage && IsLanguageSupported(language) {
        SetLanguage(language);
        UpdateLanguageSwitcher();
        events := events + [currentLanguage.value];
      }
    }

    /** Two identical switches: the second changes nothing. */
    method SwitchLanguageTwice(language: string)
      modifies this
      ensures IsLanguageSupported(language) ==> currentLanguage == Some(language)
      ensures |events| <= |old(events)| + 1
      ensures |events| == |old(events)| + 1 <==> IsLanguageSupported(language) && old(currentLanguage) != Some(language)
    {
      SwitchLanguage(language);
      ghost var afterFirst := events;
      SwitchLanguage(language);
      assert events == afterFirst;
    }

    /** `init`, with the outcome of fetching the dictionaries given as `fetched`,
        `navigator.language` as `browserLanguage`, and `fault` saying whether
        `localStorage` or `history.replaceState` throws. A throw is caught and the current
        language falls back to the default; the steps already taken stay done. */
    method Init(fetched: map<string, Node>, browserLanguage: string, fault: InitFault)
      modifies this
      ensures translations == Loaded(old(translations), fetched)
      ensures events == old(events)
      ensures fault == StorageThrows ==>
                && currentLanguage == Some(DefaultLanguage)
                && storage == old(storage) && documentLang == old(documentLang) && query == old(query)
                && nodes == old(nodes) && metaContent == old(metaContent) && title == old(title)
                && buttons == old(buttons) && displays == old(displays)
      ensures var d := DetectLanguage(Lookup(old(query), LangParam), Lookup(old(storage), LanguageStorageKey), browserLanguage);
              fault == HistoryThrows ==>
                && currentLanguage == Some(DefaultLanguage)
                && storage == old(storage)[LanguageStorageKey := d]
                && documentLang == d
                && query == old(query)
                && nodes == NodesAfterApply(old(nodes), translations, Some(d))
                && metaContent == MetaContentAfter(old(metaContent), translations, Some(d))
                && title == TitleAfter(old(title), translations, Some(d))
                && buttons == old(buttons) && displays == old(displays)
      ensures var d := DetectLanguage(Lookup(old(query), LangParam), Lookup(old(storage), LanguageStorageKey), browserLanguage);
              fault == NoFault ==>
                && currentLanguage == Some(d)
                && storage == old(storage)[LanguageStorageKey := d]
                && documentLang == d
                && query == QueryFor(old(query), d)
                && nodes == NodesAfterApply(old(nodes), translations, Some(d))
                && metaContent == MetaContentAfter(old(metaContent), translations, Some(d))
                && title == TitleAfter(old(title), translations, Some(d))
                && buttons == Highlighted(old(buttons), Some(d))
                && displays == DisplaysFor(old(displays), Some(d))
    {
      translations := Loaded(translations, fetched);
      if fault == StorageThrows {
        // `getItem` in detection, or else `setItem` before anything else is written.
        currentLanguage := Some(DefaultLanguage);
        return;
      }
      var detected := DetectLanguage(Lookup(query, LangParam), Lookup(storage, LanguageStorageKey), browserLanguage);
      ShowLanguage(detected, fault == HistoryThrows);
    }

    /** The steps of `init` after detection: `setLanguage` and the switcher update, or, when
        `replaceState` throws inside `setLanguage`, the steps before it and the fallback of
        the current language to the default. */
    method ShowLanguage(language: string, historyThrows: bool)
      modifies this`currentLanguage, this`storage, this`documentLang, this`nodes, this`metaContent, this`title,
               this`query, this`buttons, this`displays
      ensures var c := Coerce(language);
              && storage == old(storage)[LanguageStorageKey := c]
              && documentLang == c
              && nodes == NodesAfterApply(old(nodes), translations, Some(c))
              && metaContent == MetaContentAfter(old(metaContent), translations, Some(c))
              && title == TitleAfter(old(title), translations, Some(c))
      ensures historyThrows ==>
                currentLanguage == Some(DefaultLanguage) && query == old(query) &&
                buttons == old(buttons) && displays == old(displays)
      ensures var c := Coerce(language);
              !historyThrows ==>
                && currentLanguage == Some(c)
                && query == QueryFor(old(query), c)
                && buttons == Highlighted(old(buttons), Some(c))
                && displays == DisplaysFor(old(displays), Some(c))
    {
      if historyThrows {
        var _ := StoreAndApply(language);
        currentLanguage := Some(DefaultLanguage);
        return;
      }
      SetLanguage(language);
      UpdateLanguageSwitcher();
    }
  }
}
