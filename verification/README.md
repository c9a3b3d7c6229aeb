# Portfolio site core, modelled in Dafny

This project models the logic of a personal portfolio web site. The site has
a Flask back end and a small amount of browser script. Six modules cover it:

- `Routes` (`routes.dfy`) models the request handlers that hold logic:
  - the contact form, which validates and stores a message;
  - the password-gated admin session and its guard;
  - creating, editing and deleting blog posts;
  - the projects page, with its language badges and sorted technology list;
  - the filtered-projects API (search, then technology);
  - the grouping of skills by category.

  The database is the state of one `Site` object. The session is its
  `adminAuth` flag. A submitted form is a map from field name to value.
- `GitHub` (`github_service.dfy`) models the repository fetcher:
  - its process-wide cache cell, which stays fresh for five seconds;
  - the formatting of each upstream repository;
  - the per-repository language shares.

  Responses of the hosting API are inputs, and the clock is an integer in
  microseconds. A non-200 answer to the repository listing gives an empty
  list and keeps the cache. A request exception falls back to the cached
  list when it is non-empty.
- `I18n` (`i18n.dfy`) models the page's translation script:
  - the dotted-key lookup in the translations document;
  - the one-time capture of the database-provided Spanish texts;
  - the language switch. It sets the document language and direction,
    translates the marked elements and selects the language button. Then it
    either restores the Spanish texts or translates them through the
    `bd_translations` tables.
- `Theme` (`theme.dfy`) models the light/dark switch:
  - the pure choices `SystemTheme` and `SavedTheme`;
  - the `ThemeSwitch` class, whose methods update the stored choice, the
    light-mode flag and the icon.
- `Strings` and `Seqs` hold the string and list operations the site relies
  on: `strip`, `split`, `lower`, substring search, string order and
  order-preserving filtering. Python's `strip` and JavaScript's `trim` are
  kept apart, because they disagree on what whitespace is.

State that the source changes in place is a class: `Site`,
`GitHubService`, `Page` and `ThemeSwitch`. Each method states its new state,
using specification functions that the lemmas reason about.

## Model

| member | source | states |
|---|---|---|
| Strings.Trim | app/routes.py:111-114 | Removes the given runtime's whitespace from both ends. Its properties are the next four lemmas. |
| Strings.PyStrip | app/routes.py:111-114 | Python's `strip()`, whose whitespace includes U+001C to U+001F and U+0085. |
| Strings.JsTrim | app/static/js/i18n.js:49 | JavaScript's `trim()`, whose whitespace includes U+FEFF but not U+001C to U+001F. |
| Strings.StripAndTrimDiffer | app/routes.py:111 | On the one-character string U+001C, Python's strip gives `""` and JavaScript's trim keeps the character. |
| Strings.TrimStartDrops | app/routes.py:111-114 | Stripping the front removes a prefix of whitespace, and what remains does not start with whitespace. |
| Strings.TrimEndDrops | app/routes.py:111-114 | Stripping the end removes a suffix of whitespace, and what remains does not end with whitespace. |
| Strings.TrimIsStrip | app/routes.py:111-114 | The stripped string is empty exactly when the input is all whitespace, and otherwise starts and ends with a non-space character. |
| Strings.TrimIdempotent | app/routes.py:209-211 | Stripping a stripped field changes nothing. |
| Strings.Split | app/routes.py:80 | `split(sep)`: a new part starts after every separator, and `""` splits to `[""]`. Its properties are `SplitParts` and `SplitJoin`. |
| Strings.SplitParts | app/routes.py:80 | `split(',')` always yields at least one part, no part holds the separator, and joining the parts gives the input back. |
| Strings.SplitJoin | app/static/js/i18n.js:119 | Splitting a join of separator-free parts gives exactly those parts. |
| Strings.Lower | app/routes.py:278 | `lower()`, letter by letter on ASCII letters. |
| Strings.Contains | app/routes.py:316-317 | `needle in hay`: the needle occurs at some position of the haystack. |
| Strings.Below | app/routes.py:83 | Python's `a < b` on strings: code-point order, with a proper prefix first. |
| Strings.BelowIrreflexive | app/routes.py:83 | Python's string order never puts a string before itself. |
| Strings.BelowTransitive | app/routes.py:83 | Python's string order is transitive. |
| Strings.BelowTotal | app/routes.py:83 | Any two distinct strings are ordered one way or the other. |
| Seqs.Filter | app/routes.py:315-317 | A comprehension filter holds exactly the kept elements of its input, and no more of them than the input has. |
| Seqs.FilterIsSubsequence | app/routes.py:315-317 | A filter keeps the relative order of the elements it keeps. |
| Seqs.FilterCongruent | app/routes.py:313-326 | Filters by two tests that agree on every element of the list give the same result. |
| Seqs.FilterFilter | app/routes.py:313-326 | Filtering by one test and then by another is one filter by both tests. |
| Seqs.UnionHas | app/routes.py:77-81 | Everything an element of the list contributes is in the collected union. |
| Seqs.UnionFrom | app/routes.py:77-81 | Everything in the collected union was contributed by some element of the list. |
| GitHub.Languages | app/github_service.py:27-53 | The languages `get_repo_languages` returns: none unless the reply is a 200 with a non-empty body, and otherwise each language of the body, in order, with its bytes over the total. |
| GitHub.GetRepoLanguages | app/github_service.py:20-53 | Non-200 or failed requests and empty bodies give no languages. Otherwise every language of the body appears, in order, with its share of the summed byte count, so the key list equals the body's. |
| GitHub.OrDefault | app/github_service.py:90-98 | Python's `value or default` on an optional string: the default for a missing or empty value. |
| GitHub.FormatRepo | app/github_service.py:89-108 | The dictionary built for one upstream repository. Its properties are `FormatRepoNormalises`. |
| GitHub.FormatRepoNormalises | app/github_service.py:89-108 | A formatted repository has a non-empty language (default `No especificado`) and description (default `Sin descripción`), uses the HTML URL for both links, is not featured and has no image. Its language list is the keys of its languages, or the primary language alone when there are none. |
| GitHub.FormatRepos | app/github_service.py:84-109 | One formatted entry per upstream repository, in upstream order, each built from that repository's own languages request. |
| GitHub.Fresh | app/github_service.py:64-65 | The cache test: both fields set and less than the window elapsed. |
| GitHub.FreshnessIsStrict | app/github_service.py:64-66 | The cache serves strictly less than five seconds after it was written, never at the five-second mark, and never with a field unset. |
| GitHub.GitHubService.constructor | app/github_service.py:12-13 | The cache starts empty. |
| GitHub.GitHubService.GetRepos | app/github_service.py:56-122 | The API is contacted exactly when the cache is not fresh. A fresh cache is returned unchanged. A 200 answer is formatted and becomes the cache, stamped with the second clock reading. Another status gives an empty list and keeps the cache. A request exception gives the old cache if it is non-empty, else an empty list. |
| GitHub.GitHubService.ClearCache | app/github_service.py:125-128 | Both cache fields are unset, so the next call contacts the API whatever the time. |
| Routes.Field | app/routes.py:111-114 | `request.form.get(name, '')`: the submitted value, or `''` when the field is absent. |
| Routes.BlogPassword | app/routes.py:13 | `os.getenv('BLOG_PASSWORD', 'nicolas2024')`: the environment's value when set, else the default. |
| Routes.Site.constructor | app/routes.py:13 | The admin password is the environment's value when it is set and `nicolas2024` otherwise. The session starts logged out, with empty tables. |
| Routes.Site.Contact | app/routes.py:109-181 | All four stripped fields must be non-empty. Then the stripped message must have at least ten characters. A failed commit is reported as a processing error. Otherwise exactly one unread row with the stripped fields is appended and the form is reported as sent, whatever happens to the mail. |
| Routes.Site.AdminLogin | app/routes.py:188-194 | Only the exact password sets the session flag. A wrong one leaves the session unchanged. |
| Routes.Site.AdminLogout | app/routes.py:270-273 | Afterwards the flag is clear, whatever it was before. |
| Routes.Site.AdminPanel | app/routes.py:15-22 | The guarded handler runs exactly when the session flag is set, and redirects to the login page otherwise. |
| Routes.Site.CreatePost | app/routes.py:204-225 | Without the flag, or with an empty stripped title or content, nothing is stored. Otherwise exactly one post with the stripped fields is added under an unused id, with `order` one more than the number of posts. |
| Routes.Edited | app/routes.py:236-243 | An edit replaces title, content and summary by their stripped values. It moves `updated_at` to now when one of them changes, and leaves the row identical when none does. |
| Routes.EditAgainChangesNothing | app/models.py:60 | Because `updated_at` moves only on an actual change, resubmitting the same edit later is a no-op. |
| Routes.Site.EditPost | app/routes.py:229-244 | Without the flag, nothing changes. An unknown id is not found. An empty stripped title or content is not committed. Otherwise only that post changes, to `Edited(post, form, now)`. |
| Routes.Site.DeletePost | app/routes.py:248-255 | Without the flag, nothing changes. An unknown id is not found. Otherwise exactly that post is removed. |
| Routes.RepoCard | app/routes.py:286-297 | The card of a repository: its name, description, primary language as `technologies`, GitHub link, image and stars, not featured and from GitHub. |
| Routes.ProjectCard | app/routes.py:301-311 | The card of a featured project: its own fields, featured and not from GitHub. |
| Routes.TechTokens | app/routes.py:80 | The stripped comma-separated tokens of a `technologies` string. |
| Routes.MatchesSearch | app/routes.py:315-317 | The query occurs in the lower-cased title or in the lower-cased description, a missing description counting as `''`. |
| Routes.MatchesTech | app/routes.py:323-324 | The technology is exactly one of the card's stripped tokens. |
| Routes.Passes | app/routes.py:313-326 | A card passes the search unless the query is empty, and the technology test unless the technology is empty. |
| Routes.FilterByTech | app/routes.py:320-326 | The loop keeps, in order, exactly the cards one of whose stripped comma-separated tokens equals the technology. |
| Routes.FilteredProjects | app/routes.py:276-328 | The result is the repository cards followed by the featured-project cards, filtered by the search and then by the technology. That equals one filter by `Passes`, so the order and any repeated cards are kept. It holds exactly the candidates that pass, and an empty query and technology return every candidate. |
| Routes.StrictlySortedDistinct | app/routes.py:83 | A strictly sorted technology list holds no technology twice. |
| Routes.InsertSorted | app/routes.py:83 | Inserts a string before the first entry it is below. |
| Routes.InsertSortedKeepsOrder | app/routes.py:83 | Inserting a new string into a strictly sorted list keeps it strictly sorted and adds exactly that string. |
| Routes.SortedList | app/routes.py:83 | `sorted(list(s))` is strictly sorted and holds exactly the members of the set. |
| Routes.TechSetMembers | app/routes.py:76-81 | The collected set holds exactly the tokens of the cards seen with a non-empty `technologies`. |
| Routes.Technologies | app/routes.py:76-83 | The filter list is strictly sorted and has no duplicates. It holds exactly the stripped tokens of the cards whose `technologies` is non-empty. |
| Routes.InsertByShare | app/routes.py:54 | Inserts an entry after every entry with at least its share, so that ties keep their order. |
| Routes.InsertByShareIsPermutation | app/routes.py:54 | Inserting a language entry adds exactly that entry. |
| Routes.InsertByShareBounded | app/routes.py:54 | Inserting an entry whose share is at most a bound into a list bounded by it keeps every share at most that bound. |
| Routes.InsertByShareKeepsOrder | app/routes.py:54 | Inserting into a list sorted by decreasing share keeps it sorted. |
| Routes.SortByShare | app/routes.py:54 | The languages are a permutation of the repository's, largest share first. |
| Routes.LanguageBadges | app/routes.py:50-60 | One badge per language, largest share first, a permutation of the repository's languages, each with its own colour. |
| Routes.ProjectsPage | app/routes.py:41-85 | One card per repository, in order. Each repository's badges are its languages, largest share first, each with its own colour. The technology list is sorted, and a token is in it exactly when some card with non-empty `technologies` carries it. |
| Routes.CategoriesSnoc | app/routes.py:93-95 | The categories seen grow by exactly the category of the next skill. |
| Routes.GroupsSnoc | app/routes.py:93-96 | One step of the loop, which creates the category's group when it is new and appends the skill, keeps every group equal to its category's skills in order. |
| Routes.GroupSkills | app/routes.py:90-96 | There is one group per category that occurs, and each group holds exactly that category's skills in query order. |
| Routes.SkillInOneGroup | app/routes.py:93-96 | Every skill is in the group of its own category and in no other. |
| Routes.GroupInOrder | app/routes.py:91-96 | With the skills in the query's (category, order) order, every group is in `order` order. |
| I18n.Step | app/static/js/i18n.js:123-127 | One step of the lookup: it goes into the key's value when that value is truthy, and fails otherwise. |
| I18n.Walk | app/static/js/i18n.js:120-130 | The lookup of a path from the language's entry. |
| I18n.Translation | app/static/js/i18n.js:118-131 | `getTranslation(key)`: the value at the dotted path, or the key itself when a step fails. |
| I18n.WalkStaysMissing | app/static/js/i18n.js:122-128 | Once a step of the lookup fails, the lookup of any longer key fails too. |
| I18n.TranslationOfMissingLanguage | app/static/js/i18n.js:119-128 | A language absent from the document translates every key to the key itself. |
| I18n.TranslationIsFoundOrKey | app/static/js/i18n.js:118-131 | A lookup returns either a truthy value of the document or the key unchanged. |
| I18n.TranslationFollowsPath | app/static/js/i18n.js:119-130 | The key `a.b.c` walks exactly the path `a`, `b`, `c` of the document. |
| I18n.Page.GetTranslation | app/static/js/i18n.js:118-131 | The loop with its early return computes the nested lookup, or gives back the key. |
| I18n.Record | app/static/js/i18n.js:49-52 | One turn of a store loop: the stripped text is recorded at its index when it is non-empty and nothing is recorded there yet. |
| I18n.StoreSlot | app/static/js/i18n.js:48-53 | One selector's pass of `storeOriginalContent`: an element's stripped text is recorded when it is non-empty and nothing is recorded at its index yet. |
| I18n.StoreSlotKeeps | app/static/js/i18n.js:47-113 | An original already recorded is never overwritten (first write wins). |
| I18n.StoreSlotTakesText | app/static/js/i18n.js:47-113 | Any original that is newly recorded is the stripped, non-empty text of the element at that index. |
| I18n.StoreSlotCovers | app/static/js/i18n.js:47-113 | Every element with a non-empty stripped text ends up with a recorded original. |
| I18n.StoreSlotSettled | app/static/js/i18n.js:47-113 | Storing changes nothing once every element with text has an original. |
| I18n.StoreSlotIdempotent | app/static/js/i18n.js:46-115 | Calling `storeOriginalContent` a second time changes nothing. |
| I18n.RestoreSlot | app/static/js/i18n.js:177-181 | Every element with a recorded original shows it again. |
| I18n.TranslateSlot | app/static/js/i18n.js:257-271 | Every element whose original has a truthy table entry shows that entry. |
| I18n.BdTranslations | app/static/js/i18n.js:247 | The language's `bd_translations` object, or an empty one. |
| I18n.SlotTable | app/static/js/i18n.js:274-329 | The table of one selector inside `bd_translations`. |
| I18n.DatabaseText | app/static/js/i18n.js:245-336 | A selector is translated from its table when `bd_translations` is non-empty and the table is present, and is left alone otherwise. |
| I18n.RestoreAfterTranslate | app/static/js/i18n.js:173-224 | Going back to Spanish undoes any translation of the database texts. |
| I18n.TranslationForgetsHistory | app/static/js/i18n.js:257-271 | Wherever the new table applies, the result does not depend on what the element showed before. Elsewhere the element keeps its text. |
| I18n.SpanishRoundTrip | app/static/js/i18n.js:173-224 | With the originals captured from the page as served, a round trip through any language back to Spanish shows the stripped text of every element whose text is not blank. The other elements keep what they showed. |
| I18n.ApplyKeyed | app/static/js/i18n.js:149-159 | The property of a `data-i18n` element that receives its translation. |
| I18n.SelectButton | app/static/js/i18n.js:342-350 | A language button's state once a language is selected. |
| I18n.KeyedIn | app/static/js/i18n.js:145-160 | Every `data-i18n` element after the pass. |
| I18n.PlaceholdersIn | app/static/js/i18n.js:163-167 | Every `data-i18n-placeholder` element after the pass. |
| I18n.ButtonsFor | app/static/js/i18n.js:339-352 | Every language button after `updateLanguageSelector`. |
| I18n.StoredOriginals | app/static/js/i18n.js:46-115 | Every selector's originals after `storeOriginalContent`. |
| I18n.RestoredContent | app/static/js/i18n.js:173-224 | Every selector's elements after the Spanish branch. |
| I18n.DatabaseContent | app/static/js/i18n.js:245-336 | Every selector's elements after `translateDatabaseContent`. |
| I18n.ApplyKeyedSetsOneTarget | app/static/js/i18n.js:145-160 | A `data-i18n` element receives its translation in exactly one property, chosen by its tag and attributes. The other properties are untouched. |
| I18n.Page.constructor | app/static/js/i18n.js:2-16 | The script starts with no translations and nothing recorded. The language is the stored one, or Spanish when nothing is stored. |
| I18n.Page.StoreElements | app/static/js/i18n.js:48-53 | One selector's loop records what the store specification says. |
| I18n.Page.StoreOriginalContent | app/static/js/i18n.js:46-115 | Every selector's originals become `StoreSlot` of its elements and its earlier originals. |
| I18n.Page.RestoreElements | app/static/js/i18n.js:173-177 | One selector's elements show their recorded originals again. |
| I18n.Page.RestoreOriginalContent | app/static/js/i18n.js:173-224 | Every selector's elements with an original show it. The others are untouched. |
| I18n.Page.TranslateElements | app/static/js/i18n.js:257-271 | An element is replaced by the table's entry for its recorded original when that entry is truthy, and is left alone otherwise. |
| I18n.Page.TranslateDatabaseContent | app/static/js/i18n.js:245-336 | With no non-empty `bd_translations`, nothing changes. Otherwise each selector with a present table is translated from its originals. |
| I18n.Page.UpdateLanguageSelector | app/static/js/i18n.js:339-352 | A button is active, at full opacity and enlarged exactly when its `data-lang` is the language. |
| I18n.Page.TranslateKeyedElements | app/static/js/i18n.js:145-160 | Every `data-i18n` element gets the lookup of its key in its one target property. |
| I18n.Page.TranslatePlaceholders | app/static/js/i18n.js:163-167 | Every `data-i18n-placeholder` element gets the lookup of its key as placeholder. |
| I18n.Page.ApplyLanguage | app/static/js/i18n.js:134-234 | The language is stored and set on the document. The direction is right-to-left exactly for Arabic. Texts and placeholders are translated and the button is selected. Spanish restores the originals; any other language translates the database texts. |
| I18n.Page.LoadTranslations | app/static/js/i18n.js:18-42 | A failed load changes nothing. Otherwise the document is kept and the Spanish texts are recorded. Then a stored language other than Spanish is applied in full. For Spanish only the buttons are selected, and the texts, storage and document attributes stay as they were. |
| Theme.SystemTheme | app/static/js/theme.js:6-8 | The system theme is `dark` exactly when the dark colour-scheme query matches, and `light` otherwise. |
| Theme.SavedTheme | app/static/js/theme.js:11-17 | The stored choice when it is non-empty, else the system theme. Never empty. |
| Theme.Opposite | app/static/js/theme.js:39 | The theme a toggle switches to: `light` from `dark`, and `dark` from anything else. |
| Theme.Apply | app/static/js/theme.js:20-34 | `applyTheme`: `light` stores `light`, sets light mode and shows the moon. Anything else stores `dark`, clears it and shows the sun. |
| Theme.Toggle | app/static/js/theme.js:37-41 | `toggleTheme`: applies the opposite of the saved theme. |
| Theme.SystemChange | app/static/js/theme.js:44-49 | The listener applies the system theme only when no choice is stored. |
| Theme.Load | app/static/js/theme.js:52-66 | Page load applies the saved theme. |
| Theme.ApplySettles | app/static/js/theme.js:20-34 | Applying `light` stores `light` and sets light mode. Any other argument stores `dark` and clears it. Afterwards the stored value, the class and the icon agree. |
| Theme.ApplyOverrides | app/static/js/theme.js:20-34 | Applying is idempotent, and the last application wins. |
| Theme.ToggleFlips | app/static/js/theme.js:37-41 | A toggle goes to light mode exactly when the current theme is `dark`, and from a consistent state it flips the mode. |
| Theme.ToggleTwice | app/static/js/theme.js:37-41 | Two toggles from a stored `light` or `dark` bring it back, and from a consistent state bring back the whole look. |
| Theme.LoadKeepsChoice | app/static/js/theme.js:52-66 | Loading leaves a consistent look. It keeps a stored `light` or `dark` and stores the system theme when nothing is stored. |
| Theme.LoadTwice | app/static/js/theme.js:52-66 | Running the initialisation a second time, as the `DOMContentLoaded` handler does, changes nothing. |
| Theme.ListenerIdleAfterApply | app/static/js/theme.js:44-49 | Once any theme has been applied, as loading does, the system-change listener changes nothing. |
| Theme.ListenerFollowsSystem | app/static/js/theme.js:44-49 | Before anything is stored, the listener applies the new system theme. |
| Theme.ThemeSwitch.GetSavedTheme | app/static/js/theme.js:11-17 | Returns `SavedTheme` of the current storage and system preference. |
| Theme.ThemeSwitch.ApplyTheme | app/static/js/theme.js:20-34 | The new look is `Apply` of the old one, which is always consistent. |
| Theme.ThemeSwitch.ToggleTheme | app/static/js/theme.js:37-41 | The new look is `Toggle` of the old one. |
| Theme.ThemeSwitch.OnSystemChange | app/static/js/theme.js:44-49 | The preference becomes the event's value, and the look changes only when nothing is stored. |
| Theme.ThemeSwitch.Initialize | app/static/js/theme.js:52-66 | The saved theme is applied, leaving a consistent look. |

## Left out

- Flask itself is not modelled: routing, templates, flash messages, redirect URLs and JSON encoding. Each handler returns a small outcome value instead.
- The GET branches that only render a form or a list are not modelled: `contacto`, `admin_login`, `admin_crear_post`, `admin_editar_post`, `index`, `blog`, `blog_post`, `api_proyectos` and `api_habilidades`.
- The database queries are inputs: the featured projects in `order` order, and the skills in (category, order) order.
- The contents of the two notification mails are not modelled. Sending them is a parameter whose failure is ignored, as in the source.
- Routes.Site.CreatePost: ids come from a counter. SQLite may hand out the largest id again after that post is deleted.
- Routes.GroupSkills: the insertion order of the keys of `skills_by_category` is not stated.
- Routes.SortByShare: entries are sorted by byte count, not by the rounded percentage. The order among equal shares is not stated.
- GitHub.GetRepoLanguages: a percentage is kept as the pair (bytes, total). Float division, rounding to one decimal and the division by zero for an all-zero body are not modelled.
- GitHub.GitHubService.GetRepos: the network, the timeouts and the logging are inputs or dropped. Two requests racing on the class-level cache are not modelled.
- `get_language_color` is a parameter of the badge functions.
- Strings.IsSpace: the Unicode space separators are those of Unicode 6.3 and later, so U+180E is not whitespace. Runtimes built on older tables are not modelled.
- Strings.Lower: only ASCII letters are lower-cased.
- I18n.Step: the lookup descends only into objects. JavaScript's indexing of a string by a key and inherited object properties are not modelled.
- I18n.SlotTable: a `bd_translations` table that is a string instead of an object translates nothing here. JavaScript would index its characters.
- I18n.Node: a translations document holds only strings and objects here. JSON numbers, booleans, `null` and arrays are not modelled.
- GitHub.Languages: the body is a list of (language, bytes) pairs in document order. A decoded JSON object cannot repeat a key, and the model does not exclude a repeated one.
- The document is abstracted to lists of element values. Two selectors matching the same element, and the DOM nodes themselves, are not modelled.
- The fetch and JSON parsing inside `loadTranslations` are an input. `changeLanguage`, `updateSkillBars`, the `languageChanged` event and the console output of the translation script are not modelled.
- `animations.js`, `main.js`, the application factory, the start-up script and its seed data are not part of this model.
