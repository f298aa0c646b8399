/** `RecipesController.recipes`: normalise the filter, derive its key, serve
    a cached answer that parses, drop one that does not, and otherwise ask
    the generator and store what it returns. */
module RecipesEndpoint {
  import opened Outcomes
  import opened Text
  import opened JsonValues
  import opened RecipesDto
  import opened RecipesService
  import opened Cache
  import opened Hashing

  /** The text stored for a generated result: a string result as it is,
      anything else as its JSON text. */
  function StoredForm(v: Json, codec: Codec): (r: string)
    ensures v.JString? ==> r == v.s
    ensures !v.JString? ==> r == codec.stringify(v)
  {
    if v.JString? then v.s else codec.stringify(v)
  }

  /** A stored non-string result that came from `parse` is served back as
      the same value. */
  lemma StoredFormReadsBack(v: Json, codec: Codec)
    requires RoundTrips(codec) && NeverEmpty(codec)
    requires Parsed(codec, v)
    requires !v.JString?
    ensures ReadCached(Some(StoredForm(v, codec)), codec) == Hit(v)
  {
    StringifiedReadsBack(v, codec);
  }

  /** Storing under a key that was just deleted is storing over it. */
  lemma StoreAfterDelete(m: map<string, Entry>, key: string, e: Entry)
    ensures (m - {key})[key := e] == m[key := e]
  {
    var a, b := (m - {key})[key := e], m[key := e];
    assert a.Keys == b.Keys;
    forall k | k in a.Keys ensures a[k] == b[k] {
    }
  }

  class RecipesController {
    const cache: CacheStore
    /** The SHA-256 hex digest of a string. */
    const hash: string -> Digest
    const codec: Codec
    /** `RECIPES_CACHE_TTL`, or 36000 when it is unset or empty. */
    const ttl: nat
    /** The normalised filters the generator was asked for, in order. */
    ghost var generatorCalls: seq<RecipesInput>

    constructor(cache: CacheStore, hash: string -> Digest, codec: Codec, ttlSetting: Option<string>)
      requires ttlSetting.None? || AllDigits(ttlSetting.value)
      ensures this.cache == cache && this.hash == hash && this.codec == codec
      ensures ttl == CacheTtl(ttlSetting) && generatorCalls == []
    {
      this.cache := cache;
      this.hash := hash;
      this.codec := codec;
      this.ttl := CacheTtl(ttlSetting);
      generatorCalls := [];
    }

    /** The first two steps of the flow: the normalised filter and the
        digest of its key string. */
    method CacheKey(filter: RecipesInput) returns (normalized: RecipesInput, key: Digest)
      ensures normalized == Normalized(filter)
      ensures key == RecipeKey(hash, normalized)
    {
      normalized := NormalizeFilter(filter);
      var serialized := SerializeRecipeFilter(normalized);
      key := hash(serialized);
    }

    /** The request flow. `respond` is the model client: the reply text for a
        prompt, or the error it throws. */
    method Recipes(filter: RecipesInput, respond: string -> Result<string, Failure>)
      returns (r: Result<Json, Failure>)
      modifies this, cache
      ensures cache.now == old(cache.now)
      ensures r.Ok? ==> Parsed(codec, r.value)
      ensures var nf := Normalized(filter);
              var key := RecipeKey(hash, nf);
              var read := ReadCached(old(cache.Lookup(key)), codec);
              && (read.Hit? ==>
                    && r == Ok(read.value)
                    && cache.entries == old(cache.entries)
                    && generatorCalls == old(generatorCalls))
              && (!read.Hit? ==>
                    && r == RecipesFromReply(respond(TaskPrompt(nf)), codec)
                    && generatorCalls == old(generatorCalls) + [nf])
              && (!read.Hit? && r.Ok? ==>
                    cache.entries == old(cache.entries)[key := Entry(StoredForm(r.value, codec), ExpiryAfter(old(cache.now), ttl))])
              && (read.Miss? && r.Err? ==> cache.entries == old(cache.entries))
              && (read.Corrupt? && r.Err? ==> cache.entries == old(cache.entries) - {key})
    {
      var normalized, key := CacheKey(filter);
      ghost var before := cache.entries;
      var cached := cache.Get(key);
      ghost var read := ReadCached(cached, codec);
      if cached.Some? && cached.value != "" {
        match codec.parse(cached.value) {
          case Ok(v) =>
            assert read == Hit(v);
            return Ok(v);
          case Err(_) =>
            cache.Del(key);
        }
      }
      r := Generate(normalized, key, respond);
      if r.Ok? && read.Corrupt? {
        StoreAfterDelete(before, key, Entry(StoredForm(r.value, codec), ExpiryAfter(cache.now, ttl)));
      }
    }

    /** The miss path: ask the generator for the normalised filter and store
        a successful result under the key; a failure stores nothing. */
    method Generate(normalized: RecipesInput, key: Digest, respond: string -> Result<string, Failure>)
      returns (r: Result<Json, Failure>)
      modifies this, cache
      ensures r == RecipesFromReply(respond(TaskPrompt(normalized)), codec)
      ensures generatorCalls == old(generatorCalls) + [normalized]
      ensures cache.now == old(cache.now)
      ensures r.Ok? ==> cache.entries == old(cache.entries)[key := Entry(StoredForm(r.value, codec), ExpiryAfter(old(cache.now), ttl))]
      ensures r.Err? ==> cache.entries == old(cache.entries)
    {
      generatorCalls := generatorCalls + [normalized];
      r := FindRecipes(normalized, respond, codec);
      if r.Ok? {
        cache.Set(key, StoredForm(r.value, codec), ttl);
      }
    }
  }

  /** Two requests for equivalent filters, the second at the same instant:
      when the first is answered with a non-string value, the second is
      served that value from the cache and the generator is not asked again. */
  method RepeatedRequest(controller: RecipesController, f: RecipesInput, g: RecipesInput,
                         respond: string -> Result<string, Failure>)
    returns (first: Result<Json, Failure>, second: Result<Json, Failure>)
    requires Equivalent(f, g)
    requires RoundTrips(controller.codec) && NeverEmpty(controller.codec)
    modifies controller, controller.cache
    ensures first.Ok? && !first.value.JString? ==> second == first
    ensures first.Ok? && !first.value.JString? ==> |controller.generatorCalls| <= |old(controller.generatorCalls)| + 1
  {
    first := controller.Recipes(f, respond);
    EquivalentNormalizeEqual(f, g);
    if first.Ok? && !first.value.JString? {
      StoredFormReadsBack(first.value, controller.codec);
    }
    second := controller.Recipes(g, respond);
  }
}
