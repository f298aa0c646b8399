/** `IngredientsController.vision`: validate the upload, derive the key from
    its bytes, serve a cached answer, and otherwise detect and store. A
    cached text that does not parse is an error for the caller and stays in
    the cache. */
module IngredientsEndpoint {
  import opened Outcomes
  import opened Text
  import opened JsonValues
  import opened Uploads
  import opened FileValidation
  import opened IngredientsService
  import opened Cache
  import opened Hashing

  class IngredientsController {
    const cache: CacheStore
    /** The SHA-256 hex digest of a byte string. */
    const hashBytes: seq<byte> -> Digest
    const codec: Codec
    /** `VISION_CACHE_TTL`, or 36000 when it is unset or empty. */
    const ttl: nat
    /** The uploads detection was run on, in order. */
    ghost var detectCalls: seq<UploadedFile>

    constructor(cache: CacheStore, hashBytes: seq<byte> -> Digest, codec: Codec, ttlSetting: Option<string>)
      requires ttlSetting.None? || AllDigits(ttlSetting.value)
      ensures this.cache == cache && this.hashBytes == hashBytes && this.codec == codec
      ensures ttl == CacheTtl(ttlSetting) && detectCalls == []
    {
      this.cache := cache;
      this.hashBytes := hashBytes;
      this.codec := codec;
      this.ttl := CacheTtl(ttlSetting);
      detectCalls := [];
    }

    /** The request flow, the validation pipe first. `respond` is the model
        client: the reply text for an image URL, or the error it throws. */
    method Vision(upload: Option<UploadedFile>, respond: string -> Result<string, Failure>)
      returns (r: Result<Json, Failure>)
      modifies this, cache
      ensures cache.now == old(cache.now)
      ensures r.Ok? ==> Parsed(codec, r.value)
      ensures Validate(upload).Err? ==>
                && r == Err(Validate(upload).error)
                && cache.entries == old(cache.entries)
                && detectCalls == old(detectCalls)
      ensures Validate(upload).Ok? ==>
                var file := upload.value;
                var key := ImageKey(hashBytes, file);
                var read := ReadCached(old(cache.Lookup(key)), codec);
                && (read.Hit? ==> r == Ok(read.value))
                && (read.Corrupt? ==> r == Err(SyntaxError(read.error)))
                && (!read.Miss? ==> cache.entries == old(cache.entries) && detectCalls == old(detectCalls))
                && (read.Miss? ==>
                      && r == DetectingIngredients(file, respond, codec)
                      && detectCalls == old(detectCalls) + [file])
                && (read.Miss? && r.Ok? ==>
                      cache.entries == old(cache.entries)[key := Entry(codec.stringify(r.value), ExpiryAfter(old(cache.now), ttl))])
                && (read.Miss? && r.Err? ==> cache.entries == old(cache.entries))
    {
      var validated := Validate(upload);
      if validated.Err? {
        return Err(validated.error);
      }
      var file := validated.value;
      var key := ImageKey(hashBytes, file);
      var cached := cache.Get(key);
      ghost var read := ReadCached(cached, codec);
      if cached.Some? && cached.value != "" {
        r := ParseJson(codec, cached.value);
        return;
      }
      assert read.Miss?;
      detectCalls := detectCalls + [file];
      r := DetectingIngredients(file, respond, codec);
      if r.Ok? {
        cache.Set(key, codec.stringify(r.value), ttl);
      }
    }
  }

  /** Two uploads of the same bytes, the second at the same instant: when the
      first is answered, the second is served the same value from the cache,
      whatever its allowed MIME type or name, and detection is not run again. */
  method RepeatedUpload(controller: IngredientsController, f: UploadedFile, g: UploadedFile,
                        respond: string -> Result<string, Failure>)
    returns (first: Result<Json, Failure>, second: Result<Json, Failure>)
    requires f.buffer == g.buffer && Acceptable(f) && Acceptable(g)
    requires RoundTrips(controller.codec) && NeverEmpty(controller.codec)
    modifies controller, controller.cache
    ensures first.Ok? ==> second == first
    ensures first.Ok? ==> |controller.detectCalls| <= |old(controller.detectCalls)| + 1
  {
    first := controller.Vision(Some(f), respond);
    ImageKeyIgnoresMetadata(controller.hashBytes, f, g);
    if first.Ok? {
      StringifiedReadsBack(first.value, controller.codec);
    }
    second := controller.Vision(Some(g), respond);
  }
}
