/** The vision service: the image key, the data URL handed to the model,
    the cleaning of the model's reply and the mapping of its failures to
    HTTP exceptions. The model client is the parameter `respond`. */
module IngredientsService {
  import opened Outcomes
  import opened Text
  import opened JsonValues
  import opened Uploads
  import opened Base64
  import opened Hashing

  // ---------------------------------------------------------------------
  // Image key
  // ---------------------------------------------------------------------

  /** `generateRedisKey`: the hex SHA-256 digest of the file contents. The
      digest is the parameter `hashBytes`. */
  function ImageKey(hashBytes: seq<byte> -> Digest, file: UploadedFile): (k: string)
    ensures IsHexDigest(k)
  {
    hashBytes(file.buffer)
  }

  /** The key sees the contents only: two uploads with the same bytes share
      it whatever their MIME types, names and declared sizes. */
  lemma ImageKeyIgnoresMetadata(hashBytes: seq<byte> -> Digest, f: UploadedFile, g: UploadedFile)
    requires f.buffer == g.buffer
    ensures ImageKey(hashBytes, f) == ImageKey(hashBytes, g)
  {
  }

  // ---------------------------------------------------------------------
  // Data URL (RFC 2397, section 3)
  // ---------------------------------------------------------------------

  const DataScheme: string := "data:"
  const Base64Marker: string := ";base64,"

  /** The position of the last occurrence of `c` in `s`. */
  function LastIndexOf(s: string, c: char): (r: Option<nat>)
    ensures r.Some? ==> r.value < |s| && s[r.value] == c && c !in s[r.value + 1..]
    ensures r.None? ==> c !in s
  {
    if |s| == 0 then None
    else if s[|s| - 1] == c then Some(|s| - 1)
    else LastIndexOf(s[..|s| - 1], c)
  }

  /** Reads a base64 data URL back into its media type and its bytes: the
      media type runs up to the last `;`, which must open `;base64,`. */
  function ParseDataUrl(url: string): Option<(string, seq<byte>)> {
    if DataScheme <= url then ParseMediaAndData(url[|DataScheme|..]) else None
  }

  function ParseMediaAndData(rest: string): Option<(string, seq<byte>)> {
    match LastIndexOf(rest, ';')
    case None => None
    case Some(i) =>
      if !(Base64Marker <= rest[i..]) then None
      else
        match Decode(rest[i + |Base64Marker|..])
        case None => None
        case Some(bytes) => Some((rest[..i], bytes))
  }

  /** `convertImageToBase64`: `data:<mimetype>;base64,<contents>`. Whatever
      the MIME type, the URL reads back as exactly that type and those bytes. */
  function ConvertImageToBase64(file: UploadedFile): (r: string)
    ensures DataScheme <= r
    ensures ParseDataUrl(r) == Some((file.mimetype, file.buffer))
  {
    var r := DataScheme + file.mimetype + Base64Marker + Encode(file.buffer);
    DataUrlRoundTrip(file.mimetype, file.buffer, r);
    r
  }

  lemma DataUrlRoundTrip(mime: string, bytes: seq<byte>, url: string)
    requires url == DataScheme + mime + Base64Marker + Encode(bytes)
    ensures DataScheme <= url
    ensures ParseDataUrl(url) == Some((mime, bytes))
  {
    EncodeHasNoSemicolon(bytes);
    DecodeEncode(bytes);
    ParseDataUrlOf(url, mime, Encode(bytes), bytes);
  }

  /** A data URL whose payload has no `;` and decodes reads back. */
  lemma ParseDataUrlOf(url: string, mime: string, payload: string, bytes: seq<byte>)
    requires url == DataScheme + mime + Base64Marker + payload
    requires ';' !in payload && Decode(payload) == Some(bytes)
    ensures DataScheme <= url
    ensures ParseDataUrl(url) == Some((mime, bytes))
  {
    MarkerIsLastSemicolon(mime, payload);
    Regroup(DataScheme, mime, Base64Marker, payload);
    ParseDataUrlParts(url, mime, payload, bytes);
  }

  lemma Regroup(a: string, b: string, c: string, d: string)
    ensures a + b + c + d == a + (b + c + d)
  {
  }

  lemma EncodeHasNoSemicolon(bytes: seq<byte>)
    ensures ';' !in Encode(bytes)
  {
    EncodeAlphabet(bytes);
  }

  lemma ParseDataUrlParts(url: string, mime: string, payload: string, bytes: seq<byte>)
    requires url == DataScheme + (mime + Base64Marker + payload)
    requires LastIndexOf(mime + Base64Marker + payload, ';') == Some(|mime|)
    requires Decode(payload) == Some(bytes)
    ensures DataScheme <= url
    ensures ParseDataUrl(url) == Some((mime, bytes))
  {
    ParseDataUrlScheme(url, mime + Base64Marker + payload);
    ParseMediaAndDataParts(mime, payload, bytes);
  }

  lemma ParseDataUrlScheme(url: string, rest: string)
    requires url == DataScheme + rest
    ensures DataScheme <= url
    ensures ParseDataUrl(url) == ParseMediaAndData(rest)
  {
    assert url[|DataScheme|..] == rest;
  }

  lemma ParseMediaAndDataParts(mime: string, payload: string, bytes: seq<byte>)
    requires LastIndexOf(mime + Base64Marker + payload, ';') == Some(|mime|)
    requires Decode(payload) == Some(bytes)
    ensures ParseMediaAndData(mime + Base64Marker + payload) == Some((mime, bytes))
  {
    var rest := mime + Base64Marker + payload;
    var i := |mime|;
    assert Base64Marker <= rest[i..] by { assert rest[i..] == Base64Marker + payload; }
    assert rest[i + |Base64Marker|..] == payload;
    assert rest[..i] == mime;
  }

  /** With a payload free of `;`, the last `;` is the one opening the marker. */
  lemma MarkerIsLastSemicolon(mime: string, payload: string)
    requires ';' !in payload
    ensures LastIndexOf(mime + Base64Marker + payload, ';') == Some(|mime|)
  {
    var tail := MarkerTail + payload;
    MarkerTailFree(payload);
    MarkerSplit(mime, payload);
    LastBeforeFree(mime, ';', tail);
  }

  const MarkerTail: string := "base64,"

  lemma MarkerTailFree(payload: string)
    requires ';' !in payload
    ensures ';' !in MarkerTail + payload
  {
    assert ';' !in MarkerTail;
  }

  lemma MarkerSplit(mime: string, payload: string)
    ensures mime + Base64Marker + payload == mime + [';'] + (MarkerTail + payload)
  {
    assert Base64Marker == [';'] + MarkerTail;
  }

  lemma LastBeforeFree(head: string, c: char, tail: string)
    requires c !in tail
    ensures LastIndexOf(head + [c] + tail, c) == Some(|head|)
  {
    var s := head + [c] + tail;
    assert s[|head| + 1..] == tail;
    LastIndexOfUnique(s, c, |head|);
  }

  /** An occurrence with no later occurrence is the last one. */
  lemma {:induction false} LastIndexOfUnique(s: string, c: char, i: nat)
    requires i < |s| && s[i] == c && c !in s[i + 1..]
    ensures LastIndexOf(s, c) == Some(i)
    decreases |s|
  {
    if i < |s| - 1 {
      assert s[|s| - 1] in s[i + 1..];
      var t := s[..|s| - 1];
      assert t[i + 1..] == s[i + 1..|s| - 1];
      assert c !in t[i + 1..];
      LastIndexOfUnique(t, c, i);
    }
  }

  // ---------------------------------------------------------------------
  // Reply cleaning
  // ---------------------------------------------------------------------

  const JsonFence: string := "```json"
  const Fence: string := "```"

  /** `output.replace(/```json|```/g, '')`: scanning left to right, each
      match is removed, the longer alternative tried first; every other
      character is kept in order. */
  function StripFences(s: string): (r: string)
    ensures |r| <= |s|
    decreases |s|
  {
    if |s| == 0 then ""
    else if JsonFence <= s then StripFences(s[|JsonFence|..])
    else if Fence <= s then StripFences(s[|Fence|..])
    else [s[0]] + StripFences(s[1..])
  }

  /** `sanitizeJsonOutput`: fences removed, then trimmed. */
  function SanitizeJsonOutput(s: string): (r: string)
    ensures NoEdgeSpace(r)
    ensures |r| <= |s|
  {
    Trim(StripFences(s))
  }

  /** Text without a backtick has no fence to remove. */
  lemma {:induction false} StripFencesNoBacktick(s: string)
    requires forall k :: 0 <= k < |s| ==> s[k] != '`'
    ensures StripFences(s) == s
    decreases |s|
  {
    if |s| > 0 {
      assert !(Fence <= s) by { assert s[0] != Fence[0]; }
      assert !(JsonFence <= s) by { assert s[0] != JsonFence[0]; }
      StripFencesNoBacktick(s[1..]);
      assert [s[0]] + s[1..] == s;
    }
  }

  /** For a reply without a backtick, cleaning is trimming. */
  lemma SanitizeNoBacktick(s: string)
    requires forall k :: 0 <= k < |s| ==> s[k] != '`'
    ensures SanitizeJsonOutput(s) == Trim(s)
  {
    StripFencesNoBacktick(s);
  }

  /** A closing fence after backtick-free text is removed and nothing else. */
  lemma {:induction false} StripClosingFence(body: string)
    requires forall k :: 0 <= k < |body| ==> body[k] != '`'
    ensures StripFences(body + Fence) == body
    decreases |body|
  {
    var s := body + Fence;
    if |body| == 0 {
      assert s == Fence;
      assert !(JsonFence <= s);
      assert s[|Fence|..] == "";
    } else {
      assert s[0] == body[0];
      assert !(Fence <= s) by { assert s[0] != Fence[0]; }
      assert !(JsonFence <= s) by { assert s[0] != JsonFence[0]; }
      assert s[1..] == body[1..] + Fence;
      StripClosingFence(body[1..]);
      assert [body[0]] + body[1..] == body;
    }
  }

  /** A reply wrapped in a ```json fence is cleaned to its trimmed body. */
  lemma SanitizeFencedReply(body: string)
    requires forall k :: 0 <= k < |body| ==> body[k] != '`'
    ensures SanitizeJsonOutput(JsonFence + body + Fence) == Trim(body)
  {
    var s := JsonFence + body + Fence;
    assert JsonFence <= s;
    assert s[|JsonFence|..] == body + Fence;
    StripClosingFence(body);
  }

  // ---------------------------------------------------------------------
  // Extraction and its failures
  // ---------------------------------------------------------------------

  const OpenAiErrorPrefix: string := "OpenAI error: "
  const UnexpectedErrorPrefix: string := "Unexpected error: "

  /** The `catch` of `extractIngredientsFromImage`: a client error keeps its
      status (none for a failed connection or a timeout) behind the
      `OpenAI error: ` prefix; anything else, the
      `SyntaxError` of a bad reply included, becomes a 500 with the
      `Unexpected error: ` prefix. */
  function MapExtractionError(e: Failure): (r: Failure)
    ensures r.HttpException?
    ensures e.ApiError? ==> r.status == e.status
    ensures !e.ApiError? ==> r.status == Some(InternalServerError)
  {
    match e
    case ApiError(status, message) => HttpException(status, OpenAiErrorPrefix + message)
    case _ => HttpException(Some(InternalServerError), UnexpectedErrorPrefix + e.message)
  }

  /** The mapped message tells the two origins apart and keeps the original
      message after the prefix. */
  lemma MapExtractionErrorRecoverable(e: Failure)
    ensures OpenAiErrorPrefix <= MapExtractionError(e).message <==> e.ApiError?
    ensures UnexpectedErrorPrefix <= MapExtractionError(e).message <==> !e.ApiError?
    ensures e.ApiError? ==> MapExtractionError(e).message[|OpenAiErrorPrefix|..] == e.message
    ensures !e.ApiError? ==> MapExtractionError(e).message[|UnexpectedErrorPrefix|..] == e.message
  {
    var m := MapExtractionError(e).message;
    if e.ApiError? {
      assert m[0] == 'O';
      assert !(UnexpectedErrorPrefix <= m) by { assert UnexpectedErrorPrefix[0] != m[0]; }
      assert m[|OpenAiErrorPrefix|..] == e.message;
    } else {
      assert m[0] == 'U';
      assert !(OpenAiErrorPrefix <= m) by { assert OpenAiErrorPrefix[0] != m[0]; }
      assert m[|UnexpectedErrorPrefix|..] == e.message;
    }
  }

  /** `extractIngredientsFromImage`: the model client's reply, cleaned and
      parsed. Every failure leaves as an `HttpException`. */
  function ExtractIngredientsFromImage(imageUrl: string, respond: string -> Result<string, Failure>,
                                       codec: Codec): (r: Result<Json, Failure>)
    ensures r.Ok? <==> respond(imageUrl).Ok? && codec.parse(SanitizeJsonOutput(respond(imageUrl).value)).Ok?
    ensures r.Ok? ==> r.value == codec.parse(SanitizeJsonOutput(respond(imageUrl).value)).value
    ensures r.Err? ==> r.error.HttpException?
    ensures respond(imageUrl).Err? && respond(imageUrl).error.ApiError?
            ==> r == Err(MapExtractionError(respond(imageUrl).error))
    ensures respond(imageUrl).Ok? && r.Err?
            ==> r.error.status == Some(InternalServerError) && UnexpectedErrorPrefix <= r.error.message
  {
    match respond(imageUrl)
    case Err(e) => Err(MapExtractionError(e))
    case Ok(raw) =>
      match ParseJson(codec, SanitizeJsonOutput(raw))
      case Ok(v) => Ok(v)
      case Err(e) => Err(MapExtractionError(e))
  }

  /** A fenced reply of backtick-free JSON text parses as its trimmed body. */
  lemma FencedReplyParses(imageUrl: string, respond: string -> Result<string, Failure>, codec: Codec, body: string)
    requires respond(imageUrl) == Ok(JsonFence + body + Fence)
    requires forall k :: 0 <= k < |body| ==> body[k] != '`'
    requires codec.parse(Trim(body)).Ok?
    ensures ExtractIngredientsFromImage(imageUrl, respond, codec) == Ok(codec.parse(Trim(body)).value)
  {
    SanitizeFencedReply(body);
  }

  /** `detectingIngredients`: extraction from the file's data URL. */
  function DetectingIngredients(file: UploadedFile, respond: string -> Result<string, Failure>,
                                codec: Codec): (r: Result<Json, Failure>)
    ensures r.Err? ==> r.error.HttpException?
    ensures r.Ok? ==> Parsed(codec, r.value)
  {
    ExtractIngredientsFromImage(ConvertImageToBase64(file), respond, codec)
  }

  /** The model sees the image only through its data URL: detection depends
      on the MIME type and the bytes, not on the name or declared size. */
  lemma DetectingIgnoresNameAndSize(f: UploadedFile, g: UploadedFile,
                                    respond: string -> Result<string, Failure>, codec: Codec)
    requires f.mimetype == g.mimetype && f.buffer == g.buffer
    ensures DetectingIngredients(f, respond, codec) == DetectingIngredients(g, respond, codec)
  {
  }
}
