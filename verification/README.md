# cook-ai-api request core, modelled in Dafny

The API has two endpoints that sit in front of an OpenAI model. `POST /recipes`
takes a recipe filter and returns generated recipes. `POST /ingredients`
takes an uploaded photo and returns the ingredients seen in it. Both put a
cache in front of the model. This project models the logic between the
request and the model call:

- how a recipe filter is canonicalised (`normalizeFilter`,
  `normalizeIngredients`): strings are trimmed and lower-cased; non-empty
  arrays are mapped the same way, de-duplicated and sorted;
- the fixed-order key string (`serializeRecipeFilter`) and the cache keys
  (`generateRedisKey` of both services, SHA-256 being a parameter);
- the task prompt `findRecipes` grows sentence by sentence;
- the two cache orchestrators, as classes over a shared `CacheStore`
  (a map of entries with a logical clock):
  - `RecipesController.recipes` normalises, keys, reads, drops a corrupt
    entry, generates and stores;
  - `IngredientsController.vision` validates, keys by the bytes, reads,
    detects and stores, and does not drop a corrupt entry;
- the vision service helpers:
  - the RFC 2397 data URL, whose base 64 payload follows RFC 4648,
    section 4;
  - the removal of code fences from the model's reply;
  - the mapping of failures to HTTP exceptions;
- the upload pipe (presence, MIME allow-list, 2 MiB limit);
- the request and response records.

Several things are parameters of the model rather than part of it:

- the model client: `respond` maps a prompt or image URL to reply text or
  to the error it throws;
- `JSON.parse`/`JSON.stringify`, as a `Codec`;
- the SHA-256 digest.

The codec round-trip and the non-emptiness of `stringify` are stated as
predicates. Lemmas that need them take them as preconditions. The round-trip
(`parse(stringify(v)) == v`) is assumed only for values `parse` can return:
there are more real numbers than texts, so no codec round-trips every
number. `JsonValues.AssumptionsSatisfiable` exhibits a codec that meets
both predicates.

Module layout:

| file | contents |
|---|---|
| `outcomes.dfy` | `Option`, `Result` |
| `hashing.dfy` | the hexadecimal SHA-256 digest the keys are |
| `text.dfy` | JavaScript `trim`, ASCII `toLowerCase`, `join`, integer rendering |
| `ordering.dfy` | default `sort` order, first-occurrence de-duplication, sorting |
| `json_values.dfy` | JSON values, exceptions, the codec |
| `recipes_dto.dfy` | `RecipesInputDto`, `NutritionDto`, `RecipeOutputDto` |
| `recipes_service.dfy` | filter normalisation, key string, key, prompt, `findRecipes` |
| `cache.dfy` | the cache store class, TTL setting, reading a cached text |
| `recipes_controller.dfy` | `RecipesController` |
| `uploads.dfy` | the uploaded file |
| `file_validation.dfy` | `FileValidationPipe` |
| `base64.dfy` | RFC 4648 base 64 with its decoder |
| `ingredients_service.dfy` | `IngredientsService` helpers |
| `ingredients_controller.dfy` | `IngredientsController` |

### Behaviour of the code worth knowing

These are properties of the code as written. The model follows each of them.

- **TTL unit.** The TTL goes to `cache-manager`, which counts milliseconds.
  The default `36000` is therefore 36 seconds.
- **No self-healing in the vision path.** Only the recipe path heals a
  corrupt entry, by deleting it and regenerating. The vision path turns an
  unparsable cached text into a `SyntaxError` for the caller and leaves
  the entry in place (`IngredientsEndpoint.IngredientsController.Vision`).
- **Cache write failures.** A failing `set` is not caught. It fails the
  request; there is no best-effort write. The model's store does not
  fail, so this path does not arise.
- **String results in the recipe path.** A string result is stored as it
  is, not JSON-encoded. A later read parses that raw text, so only non-string
  results are proved to be served back (`RecipesEndpoint.RepeatedRequest`).
- **The key string is not injective.** A `:` inside a value can imitate a
  later segment, so different canonical filters can share a key
  (`RecipesService.SerializedFilterAmbiguous`). Other quirks of the key:
  - a present but empty array still yields its segment, e.g. `allergies=`;
  - `ingredients` never enters the key;
  - an absent `output_lang` renders as `recipe:undefined` and a `null`
    one as `recipe:null`, so the two requests get different keys
    (`RecipesService.NullLangKeyDiffers`).
- **`undefined` and `null` in the prompt.** An absent `output_lang` also
  renders as `undefined` in the task prompt, and a `null` one as `null`.
  A `null` in any other optional field acts as if the field were absent:
  those fields only meet truthiness tests, and `normalizeFilter` copies a
  `null` unchanged.

## Model

| member | source | states |
|---|---|---|
| Text.Trim | src/modules/recipes/recipes.service.ts:215 | `trim` removes only whitespace, from both ends, and leaves no whitespace at either end |
| Text.TrimNoop | src/modules/recipes/recipes.service.ts:215 | a string with no whitespace at either end trims to itself |
| Text.Canon | src/modules/recipes/recipes.service.ts:215 | `x.trim().toLowerCase()` is trimmed, has no upper-case letter and is no longer than `x` |
| Text.Lower | src/modules/recipes/recipes.service.ts:215 | lower-casing keeps the length, leaves no upper-case letter and changes no other character (ASCII letters only, see Left out); its partner `LowerOfLower` shows lower-case text is left as it is |
| Text.CanonOfCanonical | src/modules/recipes/recipes.service.ts:215 | a trimmed lower-case string is its own canonical form |
| Text.CanonIdempotent | src/modules/recipes/recipes.service.ts:215 | trimming and lower-casing twice equals doing it once |
| Text.Join | src/modules/recipes/recipes.service.ts:199 | joining one part gives that part; joining none gives the empty string |
| Text.JoinCons | src/modules/recipes/recipes.service.ts:239 | a join puts exactly one separator between a leading part and the join of the rest |
| Text.IntToString | src/modules/recipes/recipes.service.ts:230 | the rendering of an integer is non-empty and starts with `-` exactly when it is negative |
| Text.NatToStringRoundTrip | src/modules/recipes/recipes.controller.ts:37-39 | `Number` of the decimal rendering of `n` is `n` |
| Text.IntToStringInjective | src/modules/recipes/recipes.service.ts:229-231 | different `max_minutes` values render differently in the key |
| Ordering.Less | src/modules/recipes/recipes.service.ts:198 | the default `sort` order puts a proper prefix first; its partners `LessIrreflexive`, `LessTransitive` and `LessTotal` make it a strict total order |
| Ordering.LessIrreflexive | src/modules/recipes/recipes.service.ts:198 | no string sorts before itself |
| Ordering.LessTransitive | src/modules/recipes/recipes.service.ts:198 | the default sort order is transitive |
| Ordering.LessTotal | src/modules/recipes/recipes.service.ts:198 | any two different strings are ordered one way or the other |
| Ordering.Dedupe | src/modules/recipes/recipes.service.ts:197 | the first-occurrence filter leaves no duplicates and keeps every element |
| Ordering.DedupeDistinct | src/modules/recipes/recipes.service.ts:197 | the filter leaves a list without duplicates unchanged |
| Ordering.Insert | src/modules/recipes/recipes.service.ts:198 | inserting adds exactly that element |
| Ordering.Sort | src/modules/recipes/recipes.service.ts:198 | sorting is a permutation |
| Ordering.SortSorted | src/modules/recipes/recipes.service.ts:198 | sorting yields a sorted list |
| Ordering.SortDistinctStrictly | src/modules/recipes/recipes.service.ts:211-212 | sorting a duplicate-free list yields a strictly increasing list |
| Ordering.StrictlySortedUnique | src/modules/recipes/recipes.service.ts:209-212 | a strictly increasing list is determined by its set of elements |
| RecipesService.CanonAll | src/modules/recipes/recipes.service.ts:196 | the `map` step puts the canonical form of each element at its position |
| RecipesService.CanonAllElements | src/modules/recipes/recipes.service.ts:196 | the mapped list holds exactly the canonical forms of the input's elements |
| RecipesService.CanonicalList | src/modules/recipes/recipes.service.ts:195-198 | map, filter and sort give a strictly increasing list of canonical strings whose set is the set of `x.trim().toLowerCase()` over the input's elements |
| RecipesService.CanonicalListDetermined | src/modules/recipes/recipes.service.ts:209-212 | lists differing in order, repetition, case or surrounding whitespace canonicalise to the same list |
| RecipesService.CanonicalListIdempotent | src/modules/recipes/recipes.service.ts:209-212 | canonicalising a canonical list changes nothing |
| RecipesService.NormalizeIngredientsDetermined | src/modules/recipes/recipes.service.ts:194-200 | lists with the same canonical elements give the same ingredient string |
| RecipesService.NormalizeIngredients | src/modules/recipes/recipes.service.ts:194-200 | `normalizeIngredients` is the comma-join of what `normalizeFilter` makes of the same array, the empty list included; its partner `NormalizeIngredientsDetermined` shows that order, repetition, case and padding do not matter |
| RecipesService.NormalizeArray | src/modules/recipes/recipes.service.ts:208-213 | an empty array stays empty; a non-empty one becomes strictly increasing over the canonical forms of its elements |
| RecipesService.NormalizeArrayDetermined | src/modules/recipes/recipes.service.ts:208-213 | permuting, duplicating, re-casing or padding array elements does not change the normalised array |
| RecipesService.NormalizeArrayIdempotent | src/modules/recipes/recipes.service.ts:208-213 | normalising a normalised array changes nothing |
| RecipesService.FieldIndex | src/modules/recipes/recipes.service.ts:202 | every key of the filter has a position in the key list |
| RecipesService.FieldOrderIndex | src/modules/recipes/recipes.service.ts:204 | the loop's `i`-th key has position `i` |
| RecipesService.NormalizeFieldStep | src/modules/recipes/recipes.service.ts:204-217 | overwriting the next key extends the normalised prefix by that key |
| RecipesService.AbsentFieldUnchanged | src/modules/recipes/recipes.service.ts:205 | skipping a key the object lacks loses nothing |
| RecipesService.NormalizeFilter | src/modules/recipes/recipes.service.ts:201-219 | the copy-and-overwrite loop returns the canonical filter |
| RecipesService.NormalizedCanonical | src/modules/recipes/recipes.service.ts:201-218 | the canonical filter has strings trimmed and lower-cased (a string `output_lang` included; `null` kept), non-empty arrays strictly increasing over the canonical elements, empty arrays still empty, absent fields absent, `max_minutes` copied |
| RecipesService.NormalizedIdempotent | src/modules/recipes/recipes.service.ts:201-219 | normalising a normalised filter returns it unchanged |
| RecipesService.NormalizedValid | src/modules/recipes/dtos/recipes.dto.ts:27-30 | normalisation keeps a valid filter valid (a positive `max_minutes` stays positive) |
| RecipesService.EquivalentNormalizeEqual | src/modules/recipes/recipes.service.ts:201-219 | filters differing only in case, surrounding whitespace, order and repetition normalise to the same filter |
| RecipesService.KeyParts | src/modules/recipes/recipes.service.ts:222 | the first segment is `recipe:` followed by the language |
| RecipesService.SerializeRecipeFilter | src/modules/recipes/recipes.service.ts:221-240 | the pushed segments, joined with `:`, are the key string of the filter |
| RecipesService.SerializedFilterPrefix | src/modules/recipes/recipes.service.ts:222 | the key string always starts with `recipe:` and the language |
| RecipesService.SerializedFullFilter | src/modules/recipes/recipes.service.ts:222-239 | with every optional field set, the key string lists the six segments in the fixed order, arrays comma-joined, segments `:`-joined |
| RecipesService.KeyPartsJustified | src/modules/recipes/recipes.service.ts:222-238 | a segment labelled `diet=`, `max_minutes=` or `cuisine=` is present exactly when that field is truthy, one labelled `allergies=` or `allowed_methods=` exactly when that array is present (even empty), and it is the label followed by the value |
| RecipesService.NullLangKeyDiffers | src/modules/recipes/recipes.service.ts:222 | a `null` `output_lang` and an absent one give different key strings (`recipe:null` and `recipe:undefined`) |
| RecipesService.SerializedBareFilter | src/modules/recipes/recipes.service.ts:222-239 | with no optional field taking part, the key string is `recipe:` and the language alone |
| RecipesService.SerializedFilterIgnoresIngredients | src/modules/recipes/recipes.service.ts:221-240 | filters that differ only in `ingredients` serialise identically |
| RecipesService.EmptyAllergiesPart | src/modules/recipes/recipes.service.ts:226-228 | a present empty allergy array still yields the segment `allergies=` |
| RecipesService.RecipeKey | src/modules/recipes/recipes.service.ts:242-245 | the recipe cache key is a 64-digit lower-case hex digest and does not depend on `ingredients`; its partner `EquivalentFiltersShareKey` gives equivalent filters one key |
| RecipesService.EquivalentFiltersShareKey | src/modules/recipes/recipes.service.ts:242-245 | equivalent filters get the same cache key once normalised |
| RecipesService.SerializedFilterAmbiguous | src/modules/recipes/recipes.service.ts:223-235 | two different canonical filters (diet `d:cuisine=c`; diet `d` with cuisine `c`) share a key string |
| RecipesService.DietImitatesCuisine | src/modules/recipes/recipes.service.ts:223-235 | a diet value holding `:cuisine=c` gives the same key string as a separate cuisine `c` |
| RecipesService.CanonicalFilter | src/modules/recipes/recipes.service.ts:201-219 | a filter without arrays whose strings are canonical is its own normal form |
| RecipesService.PromptClauses | src/modules/recipes/recipes.service.ts:54-72 | the prompt's first sentence lists the ingredients, and the sentences come in the fixed order |
| RecipesService.PromptClausesJustified | src/modules/recipes/recipes.service.ts:54-72 | the prompt holds a sentence exactly when its field passes its test: ingredients always, diet, time and cuisine when truthy, allergies and methods when non-empty |
| RecipesService.AppendInRankOrder | src/modules/recipes/recipes.service.ts:54-72 | appending a sentence of a later kind keeps the fixed order |
| RecipesService.RenderAllAppend | src/modules/recipes/recipes.service.ts:48-72 | rendering a list of sentences distributes over concatenation |
| RecipesService.ExtendPrompt | src/modules/recipes/recipes.service.ts:54-72 | one `+=` step appends exactly the rendering of the sentence whose test passed |
| RecipesService.BuildTaskPrompt | src/modules/recipes/recipes.service.ts:48-72 | the grown prompt is the preamble followed by the justified sentences, rendered in the fixed order |
| RecipesService.RecipesFromReply | src/modules/recipes/recipes.service.ts:192 | a client error is passed on as thrown; reply text is parsed as JSON, a bad text failing as a `SyntaxError` |
| RecipesService.FindRecipes | src/modules/recipes/recipes.service.ts:43-193 | the model client is asked with the task prompt of the given filter, and its reply is parsed |
| JsonValues.ParseJson | src/modules/recipes/recipes.service.ts:192 | `JSON.parse` succeeds with the codec's value or throws a `SyntaxError` with its message; a success is a value `parse` returns |
| RecipesDto.NewRecipeOutput | src/modules/recipes/dtos/recipes.dto.ts:73-82 | a new recipe has difficulty `easy` (one of `easy`, `medium`) and empty `missing` and `substitutions` |
| Cache.ExpiryAfter | src/modules/recipes/recipes.controller.ts:34-40 | a TTL of 0 stores without expiry; otherwise the entry expires `ttl` after the write |
| Cache.LiveForTtl | src/modules/recipes/recipes.controller.ts:34-40 | an entry written with a TTL is readable up to `ttl` after the write and not after (forever for 0) |
| Cache.LiveEarlier | src/modules/recipes/recipes.controller.ts:21 | an entry readable at some instant was readable at every earlier one |
| Cache.CacheStore.constructor | src/modules/recipes/recipes.controller.ts:13 | the store starts empty at time 0 |
| Cache.CacheStore.Lookup | src/modules/recipes/recipes.controller.ts:21 | a read finds exactly the live entries, with their values |
| Cache.CacheStore.Get | src/modules/recipes/recipes.controller.ts:21 | `get` returns what a read finds and changes nothing |
| Cache.CacheStore.Set | src/modules/recipes/recipes.controller.ts:34-40 | `set` maps the key to the value with the TTL's expiry; reads of every other key are unchanged |
| Cache.CacheStore.Del | src/modules/recipes/recipes.controller.ts:27 | `del` removes the key; reads of every other key are unchanged |
| Cache.CacheStore.Advance | src/modules/recipes/recipes.controller.ts:21 | time passing changes no entry and only ends readability |
| Cache.CacheTtl | src/modules/recipes/recipes.controller.ts:37-39 | an unset or empty TTL setting gives 36000 |
| Cache.CacheTtlOfDigits | src/modules/recipes/recipes.controller.ts:37-39 | a setting written as the digits of `n` gives `n` |
| Cache.ReadCached | src/modules/recipes/recipes.controller.ts:22-28 | a missing or empty cached text is a miss; otherwise it parses to a hit or fails as corrupt |
| Cache.StringifiedReadsBack | src/modules/ingredients/ingredients.controller.ts:31-42 | under the codec assumptions, the `JSON.stringify` text of a value `JSON.parse` produced reads back as the same value |
| RecipesEndpoint.StoredForm | src/modules/recipes/recipes.controller.ts:32-33 | a string result is stored as it is; anything else as its JSON text |
| RecipesEndpoint.StoredFormReadsBack | src/modules/recipes/recipes.controller.ts:22-33 | a stored non-string result that `JSON.parse` produced is served back as the same value |
| RecipesEndpoint.StoreAfterDelete | src/modules/recipes/recipes.controller.ts:27-40 | storing under a key just deleted is the same as storing over it |
| RecipesEndpoint.RecipesController.constructor | src/modules/recipes/recipes.controller.ts:10-14 | the controller uses the given store, digest and codec, with the TTL of `RECIPES_CACHE_TTL` |
| RecipesEndpoint.RecipesController.CacheKey | src/modules/recipes/recipes.controller.ts:18-20 | the key is the digest of the key string of the normalised filter |
| RecipesEndpoint.RecipesController.Recipes | src/modules/recipes/recipes.controller.ts:17-43 | every answer is a value `JSON.parse` returned; a hit is returned with no generation and no write; a corrupt entry is deleted and the request proceeds as a miss; on a miss the generator is asked for the normalised filter, success is stored under the key with the configured TTL and returned, and failure stores nothing |
| RecipesEndpoint.RecipesController.Generate | src/modules/recipes/recipes.controller.ts:31-40 | the generator's result is returned; a success is stored under the key and no other key changes; a failure writes nothing |
| RecipesEndpoint.RepeatedRequest | src/modules/recipes/recipes.controller.ts:17-43 | a second equivalent request after a non-string answer is served the same value, with no second generation |
| IngredientsService.ImageKey | src/modules/ingredients/ingredients.service.ts:31-33 | the image cache key is a 64-digit lower-case hex digest; its partner `ImageKeyIgnoresMetadata` shows it depends on the bytes alone |
| IngredientsService.ImageKeyIgnoresMetadata | src/modules/ingredients/ingredients.service.ts:31-33 | the image key depends only on the bytes, not on MIME type, name or size |
| IngredientsService.ConvertImageToBase64 | src/modules/ingredients/ingredients.service.ts:25-29 | the data URL starts with `data:` and reads back as exactly the file's MIME type and bytes |
| IngredientsService.DataUrlRoundTrip | src/modules/ingredients/ingredients.service.ts:25-29 | `data:` + type + `;base64,` + base64(bytes) parses back to the type and bytes |
| IngredientsService.ParseDataUrlOf | src/modules/ingredients/ingredients.service.ts:26-28 | a data URL whose payload has no `;` and decodes parses back to its type and bytes |
| IngredientsService.EncodeHasNoSemicolon | src/modules/ingredients/ingredients.service.ts:27 | a base 64 payload has no `;`, so the marker's `;` is the last one |
| IngredientsService.MarkerIsLastSemicolon | src/modules/ingredients/ingredients.service.ts:26-28 | the last `;` of the URL is the one opening `;base64,` |
| IngredientsService.StripFences | src/modules/ingredients/ingredients.service.ts:36 | removing fences never lengthens the text |
| IngredientsService.SanitizeJsonOutput | src/modules/ingredients/ingredients.service.ts:35-37 | the cleaned reply has no whitespace at either end |
| IngredientsService.StripFencesNoBacktick | src/modules/ingredients/ingredients.service.ts:36 | a text without a backtick has no fence to remove |
| IngredientsService.SanitizeNoBacktick | src/modules/ingredients/ingredients.service.ts:35-37 | for a reply without a backtick, cleaning is trimming |
| IngredientsService.StripClosingFence | src/modules/ingredients/ingredients.service.ts:36 | a closing fence after backtick-free text is removed and nothing else |
| IngredientsService.SanitizeFencedReply | src/modules/ingredients/ingredients.service.ts:35-37 | a reply wrapped in a json code fence is cleaned to its trimmed body |
| IngredientsService.MapExtractionError | src/modules/ingredients/ingredients.service.ts:75-86 | every failure becomes an HTTP exception: a client error keeps its status, or its lack of one (connection failure, timeout); anything else gets 500 |
| IngredientsService.MapExtractionErrorRecoverable | src/modules/ingredients/ingredients.service.ts:75-86 | the message starts with `OpenAI error: ` exactly for client errors and with `Unexpected error: ` otherwise, followed by the original message |
| IngredientsService.ExtractIngredientsFromImage | src/modules/ingredients/ingredients.service.ts:70-86 | success exactly when the reply arrives and its cleaned text parses; a client error is mapped with its status; a bad reply gives a 500 `Unexpected error: ` |
| IngredientsService.FencedReplyParses | src/modules/ingredients/ingredients.service.ts:70-74 | a fenced reply of backtick-free JSON text parses as its trimmed body |
| IngredientsService.DetectingIngredients | src/modules/ingredients/ingredients.service.ts:20-23 | every failure of detection is an HTTP exception, and every success a value `JSON.parse` returned |
| IngredientsService.DetectingIgnoresNameAndSize | src/modules/ingredients/ingredients.service.ts:20-29 | detection sees only the MIME type and the bytes, through the data URL |
| IngredientsEndpoint.IngredientsController.constructor | src/modules/ingredients/ingredients.controller.ts:18-22 | the controller uses the given store, digest and codec, with the TTL of `VISION_CACHE_TTL` |
| IngredientsEndpoint.IngredientsController.Vision | src/modules/ingredients/ingredients.controller.ts:26-48 | every answer is a value `JSON.parse` returned; a refused upload is rejected with the pipe's exception; a hit is returned without detection or write; an unparsable entry raises a `SyntaxError` and stays in the cache; on a miss, detection runs and a success is stored as JSON under the key with the configured TTL; a failure stores nothing |
| IngredientsEndpoint.RepeatedUpload | src/modules/ingredients/ingredients.controller.ts:26-48 | a second upload of the same bytes, whatever its allowed MIME type or name, is served the first answer from the cache with no second detection |
| FileValidation.Validate | src/modules/ingredients/pipes/file-validation.pipe.ts:10-27 | a missing file is a 400 `File is required`; a type outside the allow-list is a 422 type error; a size over 2097152 is a 422 size error; otherwise the file is returned unchanged |
| FileValidation.SizeLimitInclusive | src/modules/ingredients/pipes/file-validation.pipe.ts:22-25 | exactly 2097152 bytes is accepted; 2097153 is refused |
| FileValidation.TypeCheckedBeforeSize | src/modules/ingredients/pipes/file-validation.pipe.ts:15-25 | a wrong-type file reports the type error whatever its size |
| FileValidation.ValidateIdempotent | src/modules/ingredients/pipes/file-validation.pipe.ts:26 | an accepted file passes again unchanged |
| FileValidation.ValidateIgnoresContents | src/modules/ingredients/pipes/file-validation.pipe.ts:15-25 | acceptance does not depend on the contents or the file name |
| Base64.EncodeSextet | src/modules/ingredients/ingredients.service.ts:27 | every sextet maps into the base 64 alphabet |
| Base64.DecodeSextet | src/modules/ingredients/ingredients.service.ts:27 | a character decodes exactly when it is in the alphabet |
| Base64.DecodeEncodeSextet | src/modules/ingredients/ingredients.service.ts:27 | decoding a character gives back the encoded sextet |
| Base64.DecodeEncode | src/modules/ingredients/ingredients.service.ts:27 | decoding the base 64 text of any bytes gives those bytes |
| Base64.Encode | src/modules/ingredients/ingredients.service.ts:27 | `buffer.toString('base64')` gives four characters per started group of three bytes; its partners `DecodeEncode` and `EncodeAlphabet` show it is inverted by the decoder and uses only the alphabet and `=` |
| Base64.EncodeAlphabet | src/modules/ingredients/ingredients.service.ts:27 | every character of an encoding is in the alphabet or is `=` |
| Base64.EncodeInjective | src/modules/ingredients/ingredients.service.ts:27 | different contents give different base 64 texts |

## Left out

- The OpenAI calls (`recipes.service.ts` lines 74-190, `ingredients.service.ts` lines 38-69) are network I/O. The client is the parameter `respond`. The model names, token limits, temperature, system prompt and JSON schema sent with the request are not modelled, because the code never checks them.
- SHA-256 is a parameter (`hash`, `hashBytes`) whose results are assumed to be 64-digit lower-case hex strings. Only "same input, same key" is proved; collision resistance is not.
- `JSON.parse`/`JSON.stringify` are the `Codec` parameter. The round trip is an assumption (`RoundTrips`, `NeverEmpty`), not a theorem.
- Text.Lower: lower-cases ASCII letters only, because the Unicode case mapping of `toLowerCase` is not modelled.
- Ordering.Less: compares whole code points, while `sort` compares UTF-16 code units. The two orders differ only between supplementary-plane characters and the code points from U+E000 to U+FFFF.
- `max_minutes` is an integer. A non-integer number and its rendering (floating point) are not modelled.
- Cache.CacheTtl: covers an unset, empty or decimal-digit setting only. `Number` of any other text (`NaN`, signs, exponents) is left out, because it needs floating point.
- RecipesEndpoint.RecipesController.constructor: requires `RECIPES_CACHE_TTL` to be unset, empty or decimal digits, for the reason given for Cache.CacheTtl.
- IngredientsEndpoint.IngredientsController.constructor: requires `VISION_CACHE_TTL` to be unset, empty or decimal digits, for the reason given for Cache.CacheTtl.
- Expired entries are never purged from the store's map. They only stop being readable, which is what the controllers observe.
- Cache backend failures are not modelled. The Redis/Keyv wiring, the startup health check and the connection are I/O.
- RecipesService.NormalizeFilter: visits the keys in declaration order. `Object.keys` gives the request's own order, but each step rewrites only its own key, so the result is the same. Keys outside the DTO are not modelled.
- RecipesDto.RecipeOutput: `substitutions` is modelled as a list of string-to-string maps, where the code declares `Record<string, any>`. `NutritionDto`'s `fat_b` appears as `fatG`. The numeric fields (`time_minutes` and the nutrition figures) are reals, so fractions are allowed, but a double's rounding is not modelled.
- Concurrency is not modelled: two identical misses at once are not coalesced. Logging (`console.log`/`console.error`), framework wiring, configuration validation, the health controller and the module files are not part of this model.
- The `try`/`catch` in `IngredientsController.vision` only logs and rethrows. It is modelled as passing the error on.
