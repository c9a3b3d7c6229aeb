/** The page-side translation script: the nested lookup of interface texts,
    the capture of the database-provided (Spanish) texts of the page, and the
    language switch, which either puts those texts back or replaces them
    through the `bd_translations` tables.

    The document is abstracted to lists: the `[data-i18n]` elements, the
    `[data-i18n-placeholder]` elements, the language buttons, and for each of
    the eight database-text selectors the list of its elements' text, an
    absent entry standing for an education card without its field line. The
    JSON translations document is a tree of `Node`s. */
module I18n {
  import opened Seqs
  import opened Strings

  /** A value of the translations document: a string or an object. */
  datatype Node = Text(text: string) | Dict(fields: map<string, Node>)

  /** JavaScript truthiness of a value found in the document. */
  predicate Truthy(n: Node) {
    n != Text("")
  }

  /** What a text property holds once a value is assigned to it. */
  function Render(n: Node): string {
    match n
    case Text(s) => s
    case Dict(_) => "[object Object]"
  }

  // ----- getTranslation -----

  /** `translations[lang]`, if present. */
  function Root(translations: map<string, Node>, lang: string): Option<Node> {
    if lang in translations then Some(translations[lang]) else None
  }

  /** One turn of the lookup loop: `translation && translation[k]`. */
  function Step(cur: Option<Node>, k: string): Option<Node> {
    if cur.Some? && cur.value.Dict? && k in cur.value.fields && Truthy(cur.value.fields[k])
    then Some(cur.value.fields[k])
    else None
  }

  /** Where the lookup loop stands after the keys of `path`; `None` once a
      step has failed. */
  function Walk(root: Option<Node>, path: seq<string>): Option<Node> {
    if path == [] then root else Step(Walk(root, path[..|path| - 1]), path[|path| - 1])
  }

  /** What `getTranslation(key)` returns while `lang` is current: the value
      the dotted path reaches, or the key itself. */
  function Translation(translations: map<string, Node>, lang: string, key: string): Node {
    match Walk(Root(translations, lang), Split(key, '.'))
    case None => Text(key)
    case Some(n) => n
  }

  /** Once a step fails, the walk never recovers. */
  lemma {:induction false} WalkStaysMissing(root: Option<Node>, path: seq<string>, i: nat)
    requires i <= |path| && Walk(root, path[..i]) == None
    ensures Walk(root, path) == None
  {
    if i < |path| {
      var init := path[..|path| - 1];
      assert init[..i] == path[..i];
      WalkStaysMissing(root, init, i);
    } else {
      assert path[..i] == path;
    }
  }

  /** A language missing from the document translates every key to itself. */
  lemma TranslationOfMissingLanguage(translations: map<string, Node>, lang: string, key: string)
    requires lang !in translations
    ensures Translation(translations, lang, key) == Text(key)
  {
    WalkStaysMissing(None, Split(key, '.'), 0);
  }

  /** A lookup gives a truthy value of the document or the key unchanged. */
  lemma TranslationIsFoundOrKey(translations: map<string, Node>, lang: string, key: string)
    ensures var r := Translation(translations, lang, key);
      r == Text(key) || Truthy(r)
  {
    var path := Split(key, '.');
    assert path != [];
  }

  /** The key `a.b.c` walks the path `[a, b, c]`. */
  lemma {:induction false} TranslationFollowsPath(translations: map<string, Node>, lang: string, path: seq<string>)
    requires |path| >= 1 && forall p :: p in path ==> '.' !in p
    ensures var key := Join(path, '.');
      Translation(translations, lang, key)
        == match Walk(Root(translations, lang), path) case None => Text(key) case Some(n) => n
  {
    SplitJoin(path, '.');
  }

  // ----- the database-provided texts -----

  /** The eight selectors whose texts come from the database. */
  datatype Slot =
    | ExperienceTitles        // .timeline-title
    | ExperienceCompanies     // .timeline-company
    | ExperienceDescriptions  // .timeline-description
    | EducationDegrees        // .education-card h3
    | EducationInstitutions   // .education-institution
    | EducationFields         // the muted line of each .education-card
    | EducationDescriptions   // .education-card p
    | SkillCategories         // .skill-category-title

  /** The key of a slot in `originalContent` and in `bd_translations`. */
  function StorageKey(slot: Slot): string {
    match slot
    case ExperienceTitles => "experience_titles"
    case ExperienceCompanies => "experience_companies"
    case ExperienceDescriptions => "experience_descriptions"
    case EducationDegrees => "education_degrees"
    case EducationInstitutions => "education_institutions"
    case EducationFields => "education_fields"
    case EducationDescriptions => "education_descriptions"
    case SkillCategories => "skill_categories"
  }

  /** The elements of one selector, by index. */
  type Elements = seq<Option<string>>

  /** The recorded original texts of one selector, by index. */
  type Originals = map<nat, string>

  /** An element `idx` is recorded when its stripped text is non-empty and
      nothing (truthy) is recorded for `idx` yet. */
  predicate Unrecorded(orig: Originals, idx: nat) {
    idx !in orig || orig[idx] == ""
  }

  predicate HasOriginal(orig: Originals, idx: nat) {
    idx in orig && orig[idx] != ""
  }

  /** One turn of the `storeOriginalContent` loop: the stripped text of the
      element at `idx` is recorded when it is non-empty and nothing is
      recorded for `idx` yet. */
  function Record(orig: Originals, idx: nat, elem: Option<string>): Originals {
    if elem.Some? && JsTrim(elem.value) != "" && Unrecorded(orig, idx) then orig[idx := JsTrim(elem.value)]
    else orig
  }

  /** The originals after the `storeOriginalContent` loop over `elems`. */
  function StoreSlot(elems: Elements, orig: Originals): Originals {
    if elems == [] then orig
    else Record(StoreSlot(elems[..|elems| - 1], orig), |elems| - 1, elems[|elems| - 1])
  }

  /** An entry already recorded is never overwritten: first write wins. */
  lemma {:induction false} StoreSlotKeeps(elems: Elements, orig: Originals, k: nat)
    requires HasOriginal(orig, k)
    ensures k in StoreSlot(elems, orig) && StoreSlot(elems, orig)[k] == orig[k]
  {
    if elems != [] {
      StoreSlotKeeps(elems[..|elems| - 1], orig, k);
    }
  }

  /** Any entry new or changed is the stripped, non-empty text of its
      element. */
  lemma {:induction false} StoreSlotTakesText(elems: Elements, orig: Originals, k: nat)
    requires k in StoreSlot(elems, orig) && !(k in orig && StoreSlot(elems, orig)[k] == orig[k])
    ensures k < |elems| && elems[k].Some?
    ensures StoreSlot(elems, orig)[k] == JsTrim(elems[k].value) != ""
  {
    var idx := |elems| - 1;
    var init := elems[..idx];
    var r0 := StoreSlot(init, orig);
    var r := Record(r0, idx, elems[idx]);
    assert StoreSlot(elems, orig) == r;
    if r != r0 && k == idx {
      assert r[k] == JsTrim(elems[idx].value);
    } else {
      assert k in r0 && r[k] == r0[k];
      StoreSlotTakesText(init, orig, k);
      assert elems[k] == init[k];
    }
  }

  /** Every element with a non-empty stripped text ends up recorded. */
  lemma {:induction false} StoreSlotCovers(elems: Elements, orig: Originals, k: nat)
    requires k < |elems| && elems[k].Some? && JsTrim(elems[k].value) != ""
    ensures HasOriginal(StoreSlot(elems, orig), k)
  {
    var idx := |elems| - 1;
    var init := elems[..idx];
    var r0 := StoreSlot(init, orig);
    var r := Record(r0, idx, elems[idx]);
    assert StoreSlot(elems, orig) == r;
    if k < idx {
      assert init[k] == elems[k];
      StoreSlotCovers(init, orig, k);
      assert r[k] == r0[k];
    }
  }

  /** Storing leaves originals alone once every element with text has one. */
  lemma {:induction false} StoreSlotSettled(elems: Elements, orig: Originals)
    requires forall k: nat :: k < |elems| && elems[k].Some? && JsTrim(elems[k].value) != "" ==>
      k in orig && orig[k] != ""
    ensures StoreSlot(elems, orig) == orig
  {
    if elems != [] {
      StoreSlotSettled(elems[..|elems| - 1], orig);
    }
  }

  /** A repeated `storeOriginalContent` changes nothing. */
  lemma StoreSlotIdempotent(elems: Elements, orig: Originals)
    ensures StoreSlot(elems, StoreSlot(elems, orig)) == StoreSlot(elems, orig)
  {
    forall k: nat | k < |elems| && elems[k].Some? && JsTrim(elems[k].value) != ""
      ensures HasOriginal(StoreSlot(elems, orig), k)
    {
      StoreSlotCovers(elems, orig, k);
    }
    StoreSlotSettled(elems, StoreSlot(elems, orig));
  }

  /** The Spanish branch of `applyLanguage` on one selector: every element
      with a recorded original shows it again, the others are untouched. */
  function RestoreSlot(elems: Elements, orig: Originals): Elements {
    seq(|elems|, i requires 0 <= i < |elems| =>
      if elems[i].Some? && HasOriginal(orig, i) then Some(orig[i]) else elems[i])
  }

  /** `translationMap[originalText]` is truthy for element `idx`. */
  predicate Translatable(elems: Elements, orig: Originals, table: map<string, Node>, idx: nat) {
    idx < |elems| && elems[idx].Some? && HasOriginal(orig, idx)
    && orig[idx] in table && Truthy(table[orig[idx]])
  }

  /** `translateElements` on one selector: element `idx` gets the table's
      entry for its recorded original, when there is one, and is left as it
      is otherwise. What it shows before does not matter. */
  function TranslateSlot(elems: Elements, orig: Originals, table: map<string, Node>): Elements {
    seq(|elems|, i requires 0 <= i < |elems| =>
      if Translatable(elems, orig, table, i) then Some(Render(table[orig[i]])) else elems[i])
  }

  /** Going back to Spanish undoes any translation. */
  lemma RestoreAfterTranslate(elems: Elements, orig: Originals, table: map<string, Node>)
    ensures RestoreSlot(TranslateSlot(elems, orig, table), orig) == RestoreSlot(elems, orig)
  {
  }

  /** The outcome of switching to a language does not depend on the language
      shown before: wherever the new table applies, the element shows the
      same text whether it was translated before, restored or never touched;
      elsewhere it keeps what it showed. */
  lemma TranslationForgetsHistory(elems: Elements, orig: Originals, table: map<string, Node>, previous: map<string, Node>)
    ensures |TranslateSlot(TranslateSlot(elems, orig, previous), orig, table)| == |elems|
    ensures forall i :: 0 <= i < |elems| ==>
      TranslateSlot(TranslateSlot(elems, orig, previous), orig, table)[i]
        == if Translatable(elems, orig, table, i) then TranslateSlot(elems, orig, table)[i]
           else TranslateSlot(elems, orig, previous)[i]
    ensures forall i :: 0 <= i < |elems| && Translatable(elems, orig, table, i) ==>
      TranslateSlot(RestoreSlot(elems, orig), orig, table)[i] == TranslateSlot(elems, orig, table)[i]
  {
  }

  /** With the originals captured from the page as loaded, a round trip to
      any language and back to Spanish leaves every element with text showing
      its stripped text. */
  lemma SpanishRoundTrip(elems: Elements, table: map<string, Node>)
    ensures var orig := StoreSlot(elems, map[]);
      RestoreSlot(TranslateSlot(elems, orig, table), orig)
        == seq(|elems|, i requires 0 <= i < |elems| =>
             if elems[i].Some? && JsTrim(elems[i].value) != "" then Some(JsTrim(elems[i].value)) else elems[i])
  {
    var orig := StoreSlot(elems, map[]);
    RestoreAfterTranslate(elems, orig, table);
    forall i | 0 <= i < |elems| && elems[i].Some? && HasOriginal(orig, i)
      ensures orig[i] == JsTrim(elems[i].value)
    {
      StoreSlotTakesText(elems, map[], i);
    }
    forall i | 0 <= i < |elems| && elems[i].Some? && JsTrim(elems[i].value) != ""
      ensures HasOriginal(orig, i)
    {
      StoreSlotCovers(elems, map[], i);
    }
  }

  // ----- the bd_translations tables -----

  /** `translations[lang]?.bd_translations || {}`, as an object. */
  function BdTranslations(translations: map<string, Node>, lang: string): map<string, Node> {
    if lang in translations && translations[lang].Dict?
      && "bd_translations" in translations[lang].fields
      && translations[lang].fields["bd_translations"].Dict?
    then translations[lang].fields["bd_translations"].fields
    else map[]
  }

  /** The selector is translated when its table is present and truthy. */
  predicate SlotTranslated(bd: map<string, Node>, slot: Slot) {
    StorageKey(slot) in bd && Truthy(bd[StorageKey(slot)])
  }

  /** The table of one selector, as an object. */
  function SlotTable(bd: map<string, Node>, slot: Slot): map<string, Node> {
    if StorageKey(slot) in bd && bd[StorageKey(slot)].Dict? then bd[StorageKey(slot)].fields else map[]
  }

  /** One selector after `translateDatabaseContent`: translated when the
      tables are non-empty and its own is present, untouched otherwise. */
  function DatabaseText(elems: Elements, orig: Originals, bd: map<string, Node>, slot: Slot): Elements {
    if bd != map[] && SlotTranslated(bd, slot) then TranslateSlot(elems, orig, SlotTable(bd, slot))
    else elems
  }

  /** The selectors in the order the script handles them; the page's texts
      and their originals are kept per selector in this order. */
  const Slots: seq<Slot> := [
    ExperienceTitles, ExperienceCompanies, ExperienceDescriptions, EducationDegrees,
    EducationInstitutions, EducationFields, EducationDescriptions, SkillCategories]

  // ----- the interface texts and the language buttons -----

  /** An element carrying `data-i18n`. */
  datatype KeyedElement = KeyedElement(
    tag: string, key: string, hasPlaceholder: bool, hasTitle: bool,
    placeholder: string, value: string, title: string, innerHTML: string)

  /** The one property the translation of a `data-i18n` element goes to. */
  function ApplyKeyed(e: KeyedElement, text: string): KeyedElement {
    if e.tag == "INPUT" || e.tag == "TEXTAREA" then
      if e.hasPlaceholder then e.(placeholder := text) else e.(value := text)
    else if e.hasTitle then e.(title := text)
    else e.(innerHTML := text)
  }

  /** Exactly one of the four properties receives the text. */
  lemma ApplyKeyedSetsOneTarget(e: KeyedElement, text: string)
    ensures var r := ApplyKeyed(e, text);
      var input := e.tag == "INPUT" || e.tag == "TEXTAREA";
      && r.tag == e.tag && r.key == e.key && r.hasPlaceholder == e.hasPlaceholder && r.hasTitle == e.hasTitle
      && (if input && e.hasPlaceholder then r.placeholder == text else r.placeholder == e.placeholder)
      && (if input && !e.hasPlaceholder then r.value == text else r.value == e.value)
      && (if !input && e.hasTitle then r.title == text else r.title == e.title)
      && (if !input && !e.hasTitle then r.innerHTML == text else r.innerHTML == e.innerHTML)
  {
  }

  /** An element carrying `data-i18n-placeholder`. */
  datatype PlaceholderElement = PlaceholderElement(key: string, placeholder: string)

  /** A `.language-btn`; `lang` is its `data-lang` attribute. */
  datatype LanguageButton = LanguageButton(lang: Option<string>, active: bool, opacity: string, transform: string)

  function SelectButton(b: LanguageButton, lang: string): LanguageButton {
    if b.lang == Some(lang) then b.(active := true, opacity := "1", transform := "scale(1.1)")
    else b.(active := false, opacity := "0.6", transform := "scale(1)")
  }

  /** The `[data-i18n]` elements after a pass in `lang`. */
  function KeyedIn(keyed: seq<KeyedElement>, translations: map<string, Node>, lang: string): seq<KeyedElement> {
    seq(|keyed|, i requires 0 <= i < |keyed| =>
      ApplyKeyed(keyed[i], Render(Translation(translations, lang, keyed[i].key))))
  }

  /** The `[data-i18n-placeholder]` elements after a pass in `lang`. */
  function PlaceholdersIn(placeholders: seq<PlaceholderElement>, translations: map<string, Node>, lang: string)
    : seq<PlaceholderElement>
  {
    seq(|placeholders|, i requires 0 <= i < |placeholders| =>
      placeholders[i].(placeholder := Render(Translation(translations, lang, placeholders[i].key))))
  }

  /** The language buttons once `lang` is selected. */
  function ButtonsFor(buttons: seq<LanguageButton>, lang: string): seq<LanguageButton> {
    seq(|buttons|, i requires 0 <= i < |buttons| => SelectButton(buttons[i], lang))
  }

  /** Every selector's originals after `storeOriginalContent`. */
  function StoredOriginals(content: seq<Elements>, original: seq<Originals>): seq<Originals>
    requires |original| == |content|
  {
    seq(|content|, j requires 0 <= j < |content| => StoreSlot(content[j], original[j]))
  }

  /** Every selector's elements with their recorded originals put back. */
  function RestoredContent(content: seq<Elements>, original: seq<Originals>): seq<Elements>
    requires |original| == |content|
  {
    seq(|content|, j requires 0 <= j < |content| => RestoreSlot(content[j], original[j]))
  }

  /** Every selector's elements after `translateDatabaseContent` with the
      database table `bd`. */
  function DatabaseContent(content: seq<Elements>, original: seq<Originals>, bd: map<string, Node>)
    : seq<Elements>
    requires |content| == |Slots| && |original| == |Slots|
  {
    seq(|Slots|, j requires 0 <= j < |Slots| => DatabaseText(content[j], original[j], bd, Slots[j]))
  }

  /** The state of the script and the parts of the document it touches.
      `content[j]` holds the elements of selector `Slots[j]` and
      `original[j]` what is recorded for them (`originalContent`). */
  class Page {
    var translations: map<string, Node>
    var currentLanguage: string
    var storage: map<string, string>
    var htmlLang: string
    var htmlDir: string
    var keyed: seq<KeyedElement>
    var placeholders: seq<PlaceholderElement>
    var buttons: seq<LanguageButton>
    var content: seq<Elements>
    var original: seq<Originals>

    ghost predicate Valid()
      reads this
    {
      |content| == |Slots| && |original| == |Slots|
    }

    /** The script as loaded: no translations yet, nothing recorded, and the
        language the one stored, or Spanish. */
    constructor (storage: map<string, string>, keyed: seq<KeyedElement>,
                 placeholders: seq<PlaceholderElement>, buttons: seq<LanguageButton>,
                 content: seq<Elements>)
      requires |content| == |Slots|
      ensures Valid()
      ensures translations == map[] && forall j :: 0 <= j < |Slots| ==> original[j] == map[]
      ensures currentLanguage ==
        if "language" in storage && storage["language"] != "" then storage["language"] else "es"
      ensures this.storage == storage && this.keyed == keyed && this.placeholders == placeholders
      ensures this.buttons == buttons && this.content == content
    {
      this.translations := map[];
      this.currentLanguage :=
        if "language" in storage && storage["language"] != "" then storage["language"] else "es";
      this.storage := storage;
      this.htmlLang := "";
      this.htmlDir := "";
      this.keyed := keyed;
      this.placeholders := placeholders;
      this.buttons := buttons;
      this.content := content;
      this.original := seq(|Slots|, _ => map[]);
    }

    /** `getTranslation(key)`: the loop that walks the dotted key and gives
        up with the key itself at the first missing or falsy step. */
    method GetTranslation(key: string) returns (r: Node)
      ensures r == Translation(translations, currentLanguage, key)
    {
      var keys := Split(key, '.');
      var root := Root(translations, currentLanguage);
      var translation := root;
      var i := 0;
      while i < |keys|
        invariant 0 <= i <= |keys|
        invariant translation == Walk(root, keys[..i])
        invariant i > 0 ==> translation.Some?
      {
        assert keys[..i + 1][..i] == keys[..i];
        var next := Step(translation, keys[i]);
        if next.None? {
          WalkStaysMissing(root, keys, i + 1);
          return Text(key);
        }
        translation := next;
        i := i + 1;
      }
      assert keys[..i] == keys;
      r := translation.value;
    }

    /** One `forEach` of `storeOriginalContent`. */
    method StoreElements(j: nat)
      requires Valid() && j < |Slots|
      modifies this`original
      ensures Valid()
      ensures original == old(original)[j := StoreSlot(content[j], old(original)[j])]
    {
      var elems := content[j];
      var orig := original[j];
      for idx := 0 to |elems|
        invariant orig == StoreSlot(elems[..idx], old(original)[j])
      {
        assert elems[..idx + 1][..idx] == elems[..idx];
        if elems[idx].Some? {
          var text := JsTrim(elems[idx].value);
          if text != "" && Unrecorded(orig, idx) {
            orig := orig[idx := text];
          }
        }
      }
      assert elems[..|elems|] == elems;
      original := original[j := orig];
    }

    /** `storeOriginalContent`: each selector in turn records the stripped
        text of its elements, keeping what is recorded already. */
    method StoreOriginalContent()
      requires Valid()
      modifies this`original
      ensures Valid()
      ensures original == StoredOriginals(content, old(original))
    {
      for i := 0 to |Slots|
        invariant Valid()
        invariant forall j :: 0 <= j < i ==> original[j] == StoreSlot(content[j], old(original)[j])
        invariant forall j :: i <= j < |Slots| ==> original[j] == old(original)[j]
      {
        StoreElements(i);
      }
      assert original == StoredOriginals(content, old(original));
    }

    /** One `forEach` of the Spanish branch of `applyLanguage`. */
    method RestoreElements(j: nat)
      requires Valid() && j < |Slots|
      modifies this`content
      ensures Valid()
      ensures content == old(content)[j := RestoreSlot(old(content)[j], original[j])]
    {
      var elems := content[j];
      var orig := original[j];
      for idx := 0 to |elems|
        invariant |elems| == |old(content)[j]|
        invariant forall k :: 0 <= k < idx ==> elems[k] == RestoreSlot(old(content)[j], orig)[k]
        invariant forall k :: idx <= k < |elems| ==> elems[k] == old(content)[j][k]
      {
        if elems[idx].Some? && HasOriginal(orig, idx) {
          elems := elems[idx := Some(orig[idx])];
        }
      }
      assert elems == RestoreSlot(old(content)[j], orig);
      content := content[j := elems];
    }

    /** The Spanish branch of `applyLanguage`: every selector shows its
        recorded originals again. */
    method RestoreOriginalContent()
      requires Valid()
      modifies this`content
      ensures Valid()
      ensures content == RestoredContent(old(content), original)
    {
      for i := 0 to |Slots|
        invariant Valid()
        invariant forall j :: 0 <= j < i ==> content[j] == RestoreSlot(old(content)[j], original[j])
        invariant forall j :: i <= j < |Slots| ==> content[j] == old(content)[j]
      {
        RestoreElements(i);
      }
      assert content == RestoredContent(old(content), original);
    }

    /** `translateElements(selector, storageKey, translationMap)`. */
    method TranslateElements(j: nat, table: map<string, Node>)
      requires Valid() && j < |Slots|
      modifies this`content
      ensures Valid()
      ensures content == old(content)[j := TranslateSlot(old(content)[j], original[j], table)]
    {
      var elems := content[j];
      var orig := original[j];
      for idx := 0 to |elems|
        invariant |elems| == |old(content)[j]|
        invariant forall k :: 0 <= k < idx ==> elems[k] == TranslateSlot(old(content)[j], orig, table)[k]
        invariant forall k :: idx <= k < |elems| ==> elems[k] == old(content)[j][k]
      {
        if elems[idx].Some? && HasOriginal(orig, idx) && orig[idx] in table && Truthy(table[orig[idx]]) {
          elems := elems[idx := Some(Render(table[orig[idx]]))];
        }
      }
      assert elems == TranslateSlot(old(content)[j], orig, table);
      content := content[j := elems];
    }

    /** `translateDatabaseContent(lang)`: nothing changes without a
        non-empty `bd_translations`; otherwise each selector whose table is
        present is translated from its recorded originals. */
    method TranslateDatabaseContent(lang: string)
      requires Valid()
      modifies this`content
      ensures Valid()
      ensures content == DatabaseContent(old(content), original, BdTranslations(translations, lang))
      ensures BdTranslations(translations, lang) == map[] ==> content == old(content)
    {
      var bd := BdTranslations(translations, lang);
      if bd == map[] {
        return;
      }
      for i := 0 to |Slots|
        invariant Valid()
        invariant forall j :: 0 <= j < i ==> content[j] == DatabaseText(old(content)[j], original[j], bd, Slots[j])
        invariant forall j :: i <= j < |Slots| ==> content[j] == old(content)[j]
      {
        if SlotTranslated(bd, Slots[i]) {
          TranslateElements(i, SlotTable(bd, Slots[i]));
        }
      }
      assert content == DatabaseContent(old(content), original, bd);
    }

    /** `updateLanguageSelector(lang)`: a button is active exactly when its
        `data-lang` is `lang`. */
    method UpdateLanguageSelector(lang: string)
      modifies this`buttons
      ensures |buttons| == |old(buttons)|
      ensures buttons == ButtonsFor(old(buttons), lang)
      ensures forall i :: 0 <= i < |buttons| ==> (buttons[i].active <==> buttons[i].lang == Some(lang))
    {
      var bs := buttons;
      for i := 0 to |bs|
        invariant |bs| == |old(buttons)|
        invariant forall k :: 0 <= k < i ==> bs[k] == SelectButton(old(buttons)[k], lang)
        invariant forall k :: i <= k < |bs| ==> bs[k] == old(buttons)[k]
      {
        bs := bs[i := SelectButton(bs[i], lang)];
      }
      assert bs == ButtonsFor(old(buttons), lang);
      buttons := bs;
    }

    /** The `[data-i18n]` pass of `applyLanguage`. */
    method TranslateKeyedElements()
      modifies this`keyed
      ensures keyed == KeyedIn(old(keyed), translations, currentLanguage)
    {
      var es := keyed;
      for i := 0 to |es|
        invariant |es| == |old(keyed)|
        invariant forall k :: 0 <= k < i ==>
          es[k] == ApplyKeyed(old(keyed)[k], Render(Translation(translations, currentLanguage, old(keyed)[k].key)))
        invariant forall k :: i <= k < |es| ==> es[k] == old(keyed)[k]
      {
        var translation := GetTranslation(es[i].key);
        es := es[i := ApplyKeyed(es[i], Render(translation))];
      }
      assert es == KeyedIn(old(keyed), translations, currentLanguage);
      keyed := es;
    }

    /** The `[data-i18n-placeholder]` pass of `applyLanguage`. */
    method TranslatePlaceholders()
      modifies this`placeholders
      ensures placeholders == PlaceholdersIn(old(placeholders), translations, currentLanguage)
    {
      var es := placeholders;
      for i := 0 to |es|
        invariant |es| == |old(placeholders)|
        invariant forall k :: 0 <= k < i ==>
          es[k] == old(placeholders)[k].(placeholder :=
            Render(Translation(translations, currentLanguage, old(placeholders)[k].key)))
        invariant forall k :: i <= k < |es| ==> es[k] == old(placeholders)[k]
      {
        var translation := GetTranslation(es[i].key);
        es := es[i := es[i].(placeholder := Render(translation))];
      }
      assert es == PlaceholdersIn(old(placeholders), translations, currentLanguage);
      placeholders := es;
    }

    /** `applyLanguage(lang)`: records the language, sets the document's
        language and direction (right-to-left exactly for Arabic), translates
        the interface texts, selects the button, and then either puts the
        Spanish originals back or translates the database texts. */
    method ApplyLanguage(lang: string)
      requires Valid()
      modifies this
      ensures Valid()
      ensures currentLanguage == lang && storage == old(storage)["language" := lang]
      ensures htmlLang == lang && htmlDir == (if lang == "ar" then "rtl" else "ltr")
      ensures translations == old(translations) && original == old(original)
      ensures keyed == KeyedIn(old(keyed), translations, lang)
      ensures placeholders == PlaceholdersIn(old(placeholders), translations, lang)
      ensures buttons == ButtonsFor(old(buttons), lang)
      ensures lang == "es" ==> content == RestoredContent(old(content), original)
      ensures lang != "es" ==> content == DatabaseContent(old(content), original, BdTranslations(translations, lang))
    {
      currentLanguage := lang;
      storage := storage["language" := lang];
      htmlLang := lang;
      htmlDir := if lang == "ar" then "rtl" else "ltr";
      TranslateKeyedElements();
      TranslatePlaceholders();
      UpdateLanguageSelector(lang);
      ghost var before := content;
      if lang == "es" {
        RestoreOriginalContent();
        assert content == RestoredContent(before, original);
      } else {
        TranslateDatabaseContent(lang);
        assert content == DatabaseContent(before, original, BdTranslations(translations, lang));
      }
    }

    /** `loadTranslations`, with the fetched and parsed document as input
        (`None` when the fetch or the parsing fails, which is only logged).
        The document is kept, the page's Spanish texts are recorded, and
        then the stored language is applied, or, for Spanish, only the
        language buttons are updated. */
    method LoadTranslations(loaded: Option<map<string, Node>>)
      requires Valid()
      modifies this
      ensures Valid()
      ensures loaded.None? ==> unchanged(this)
      ensures loaded.Some? ==>
        && translations == loaded.value
        && original == StoredOriginals(old(content), old(original))
        && currentLanguage == old(currentLanguage)
      ensures loaded.Some? && old(currentLanguage) == "es" ==>
        && buttons == ButtonsFor(old(buttons), "es")
        && content == old(content) && keyed == old(keyed) && placeholders == old(placeholders)
        && storage == old(storage) && htmlLang == old(htmlLang) && htmlDir == old(htmlDir)
      ensures loaded.Some? && old(currentLanguage) != "es" ==>
        var lang := old(currentLanguage);
        && keyed == KeyedIn(old(keyed), translations, lang)
        && placeholders == PlaceholdersIn(old(placeholders), translations, lang)
        && buttons == ButtonsFor(old(buttons), lang)
        && content == DatabaseContent(old(content), original, BdTranslations(translations, lang))
        && storage == old(storage)["language" := lang]
        && htmlLang == lang && htmlDir == (if lang == "ar" then "rtl" else "ltr")
    {
      if loaded.None? {
        return;
      }
      translations := loaded.value;
      StoreOriginalContent();
      if currentLanguage != "es" {
        ApplyLanguage(currentLanguage);
      } else {
        UpdateLanguageSelector(currentLanguage);
      }
    }
  }
}
