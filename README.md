# Locale bootstrap of the tech-stack spinner

A model of the localization bootstrap in `src/i18n/index.ts`: the message
catalog with translation trees for English, Chinese and Japanese, the
localization provider created with Chinese as the active locale and English as
the fallback, and `detectAndUpdateLocale`, which asks a geolocation service for
the visitor's country, maps the country code to a locale and switches the
active locale when the result differs.

- `wrappers.dfy` — `Option`, used for path lookups and for the outcome of the
  geolocation request.
- `catalog.dfy` (module `Catalog`) — `Locale` (`En | Zh | Ja`), translation
  trees (`Leaf` string or `Node` map of subtrees), the three trees as
  constants `EnMessages`, `ZhMessages`, `JaMessages` (src/i18n/index.ts:5-24,
  25-44 and 45-64, with the source's keys and strings), and `Messages`, the
  catalog keyed by locale code (src/i18n/index.ts:4-65). `SameShape`
  says two trees have the same key structure, `NonEmptyLeaves` that no display
  string is empty, `HasLayout` that a tree has the flat keys `title, frontend,
  backend, database, start, spinning` plus the `result` and `categories`
  groups. `Lookup` follows a key path such as `["result", "title"]`; it is
  the model's own navigation, used to state what the catalog guarantees to a
  reader of keys.
- `detection.dfy` (module `Detection`) — ASCII lower-casing (`ToLower`),
  `Spellings` (every mixed-case spelling of a code, an independent
  description of case-insensitive matching), `ResolveLocale` (country code to
  locale), the class `I18n` holding the mutable active locale with a constant
  fallback and catalog, and the method `DetectAndUpdateLocale`. The ghost
  field `I18n.writes` counts assignments to the active locale, so that "no
  assignment when the locale is already right" can be stated.

The geolocation request is an input: `DetectAndUpdateLocale` receives
`Option<string>`, where `Some(code)` is the `country_code` field of the
answer and `None` stands for every failure the routine catches (a network
error, a non-success status, or an answer without a string `country_code`,
on which `toLowerCase` throws).

## Model

| member | source | states |
|---|---|---|
| `Catalog.SameShapeReflexive` | src/i18n/index.ts:4-65 | every translation tree has its own key structure |
| `Catalog.SameShapeSymmetric` | src/i18n/index.ts:4-65 | "same key structure" holds in both directions |
| `Catalog.SameShapeTransitive` | src/i18n/index.ts:4-65 | two trees with the structure of a third share it with each other |
| `Catalog.SameShapeLookup` | src/i18n/index.ts:4-65 | trees of the same key structure resolve exactly the same key paths |
| `Catalog.NonEmptyLookup` | src/i18n/index.ts:4-65 | in a tree without empty strings every resolved key yields a non-empty string |
| `Catalog.ZhMatchesEn` | src/i18n/index.ts:5-44 | the Chinese tree has the key structure of the English tree, at the top level and inside `result` and `categories` |
| `Catalog.JaMatchesEn` | src/i18n/index.ts:45-64 | the Japanese tree has the key structure of the English tree, at the top level and inside `result` and `categories` |
| `Catalog.EnNonEmpty` | src/i18n/index.ts:5-24 | no English display string is empty |
| `Catalog.ZhNonEmpty` | src/i18n/index.ts:25-44 | no Chinese display string is empty |
| `Catalog.JaNonEmpty` | src/i18n/index.ts:45-64 | no Japanese display string is empty |
| `Catalog.EnLayout` | src/i18n/index.ts:5-24 | the English tree has exactly the six flat keys plus the `result` group (six keys) and the `categories` group (two keys), all holding strings |
| `Catalog.LayoutResolves` | src/i18n/index.ts:4-65 | a tree with that layout resolves each of the fourteen required key paths |
| `Catalog.CatalogLocales` | src/i18n/index.ts:4-65 | the catalog holds exactly the codes `en`, `zh`, `ja`, and every code in it belongs to a supported locale |
| `Catalog.MatchesEn` | src/i18n/index.ts:4-65 | each locale's tree is in the catalog, has the English key structure and no empty string |
| `Catalog.CatalogConsistent` | src/i18n/index.ts:4-65 | any two locales' trees have the same key structure, and no tree holds an empty string |
| `Catalog.TranslationsComplete` | src/i18n/index.ts:4-65 | every locale resolves every required key path to a non-empty string, and a key path resolves in one locale exactly when it resolves in every other |
| `Detection.LowerChar` | src/i18n/index.ts:79 | a folded character is never an ASCII capital |
| `Detection.ToLower` | src/i18n/index.ts:79 | lower-casing keeps the length and leaves no ASCII capital |
| `Detection.ToLowerIdempotent` | src/i18n/index.ts:79 | lower-casing twice equals lower-casing once |
| `Detection.PreimagesExact` | src/i18n/index.ts:79 | `Preimages(c)` is exactly the set of characters that lower-case to `c` |
| `Detection.SpellingsExact` | src/i18n/index.ts:79 | a string lower-cases to `s` exactly when it is one of the mixed-case spellings of `s` |
| `Detection.ResolveLocale` | src/i18n/index.ts:79-86 | only a two-character code can select a locale other than `en` (that every resolved locale has a tree in the catalog is `Catalog.CatalogLocales`, since every `Locale` value has one) |
| `Detection.ResolveBySpelling` | src/i18n/index.ts:79-86 | `ja` exactly for the spellings of `jp`; `zh` exactly for the spellings of `cn`, `tw`, `hk`; `en` exactly for every other code |
| `Detection.ResolveIgnoresCase` | src/i18n/index.ts:79 | codes equal after lower-casing select the same locale |
| `Detection.ResolveOfLowered` | src/i18n/index.ts:79-86 | lower-casing a code beforehand does not change the selected locale |
| `Detection.ResolveExamples` | src/i18n/index.ts:79-86 | `jp`/`JP`/`Jp` give `ja`; `cn`/`CN`, `tw`/`TW`, `hk`/`HK` give `zh`; `us`, `de`, the empty code, `jpn`, `zh`, `ja` give `en` |
| `Detection.I18n.constructor` | src/i18n/index.ts:68-73 | the provider starts with active locale `zh`, fallback `en`, the application catalog and no assignment made |
| `Detection.DetectAndUpdateLocale` | src/i18n/index.ts:76-94 | on failure the active locale keeps its old value; on success it equals the resolved locale; it is assigned once when that differs from the old value and not at all otherwise; fallback and catalog cannot change |
| `Detection.Startup` | src/i18n/index.ts:68-94 | creating the provider and then running the bootstrap ends in `zh` on failure and in the resolved locale on success, with one assignment exactly when that locale is not `zh` |

## Left out

- The request to the geolocation service and the decoding of its JSON
  answer (src/i18n/index.ts:78): network I/O, replaced by the optional
  country code passed to `DetectAndUpdateLocale`.
- The `vue-i18n` library behind `createI18n`: its key lookup, its
  per-key fallback to `en` and its reactivity are foreign code; only the
  configured values (active locale, fallback locale, catalog) are modelled.
  The notification of readers after a change is represented only by the
  `writes` counter.
- Asynchrony: the `await`, and the call from `src/main.ts` that starts the
  routine without waiting for it. Sequentially the routine is one step.
- The diagnostic written with `console.error` when detection fails.
- `src/main.ts` (creating, configuring and mounting the Vue application):
  wiring without logic. `Startup` stands for its effect on the locale only.
- Detection.ToLower: folds only the ASCII capitals `A`-`Z`, whereas
  `toLowerCase` applies full Unicode case mapping; for example the Kelvin sign
  (U+212A) lower-cases to `k`, so `H` followed by the Kelvin sign selects
  Chinese in the application and English in the model.
- The order of keys in the catalog's objects: trees are maps, which carry no
  order.
