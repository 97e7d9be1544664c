/**
 * The Express server's own state and routes (server/index.js): the
 * ephemeral image store behind `storeImage` and GET /api/image/:id, the
 * POST /api/image route that feeds it, and the code-fence cleaning of the
 * text routes.
 *
 * Timers are explicit: `storeImage` schedules a deletion due TTL
 * milliseconds after the store's clock `now`, and `Advance` moves the clock,
 * firing every deletion that has come due. `crypto.randomBytes(16)` is the
 * parameter `bytes`.
 */
module Express {
  import opened Wrappers
  import opened Json
  import opened Text
  import opened Retry
  import opened ImageChain

  /** IMAGE_TTL: ten minutes, in milliseconds. */
  const ImageTtlMs: nat := 10 * 60 * 1000
  const CacheControl: string := "public, max-age=600"
  const IdBytes: nat := 16

  // ------------------------------------------------------------- hex ids

  function HexDigit(k: nat): (c: char)
    requires k < 16
  {
    if k < 10 then ('0' as int + k) as char else ('a' as int + k - 10) as char
  }

  function DigitValue(c: char): (k: nat)
    ensures k < 16
  {
    if '0' <= c <= '9' then c as int - '0' as int
    else if 'a' <= c <= 'f' then c as int - 'a' as int + 10
    else 0
  }

  predicate IsLowerHex(s: string) {
    forall i :: 0 <= i < |s| ==> '0' <= s[i] <= '9' || 'a' <= s[i] <= 'f'
  }

  /** `buf.toString('hex')`: two lower-case hex digits per byte, high nibble first. */
  function Hex(bytes: seq<Byte>): (r: string)
    ensures |r| == 2 * |bytes| && IsLowerHex(r)
  {
    if bytes == [] then []
    else [HexDigit(bytes[0] / 16), HexDigit(bytes[0] % 16)] + Hex(bytes[1..])
  }

  /** Reading hex digits back, two per byte. */
  function Unhex(s: string): seq<Byte>
    requires |s| % 2 == 0
  {
    if s == [] then []
    else [(DigitValue(s[0]) * 16 + DigitValue(s[1])) as Byte] + Unhex(s[2..])
  }

  lemma DigitValueHexDigit(k: nat)
    requires k < 16
    ensures DigitValue(HexDigit(k)) == k
  {
  }


  /** The hex rendering loses nothing: distinct random bytes give distinct ids. */
  lemma {:induction false} UnhexHex(bytes: seq<Byte>)
    ensures Unhex(Hex(bytes)) == bytes
  {
    if bytes != [] {
      var h := Hex(bytes);
      assert h[2..] == Hex(bytes[1..]);
      UnhexHex(bytes[1..]);
      DigitValueHexDigit(bytes[0] / 16);
      DigitValueHexDigit(bytes[0] % 16);
      assert Unhex(h) == [(DigitValue(h[0]) * 16 + DigitValue(h[1])) as Byte] + Unhex(h[2..]);
    }
  }

  lemma HexInjective(a: seq<Byte>, b: seq<Byte>)
    requires Hex(a) == Hex(b)
    ensures a == b
  {
    UnhexHex(a);
    UnhexHex(b);
  }

  // ----------------------------------------------------------- the store

  /** A stored image: the buffer the base64 payload was decoded from, and its MIME type. */
  datatype Entry = Entry(buf: Json, mime: Json)

  /** The ids whose deletion timers are due at time `t`. */
  function Expired(timers: seq<(string, nat)>, t: nat): set<string> {
    set j | 0 <= j < |timers| && timers[j].1 <= t :: timers[j].0
  }

  lemma ExpiredSnoc(timers: seq<(string, nat)>, x: (string, nat), t: nat)
    requires x.1 <= t
    ensures Expired(timers + [x], t) == Expired(timers, t) + {x.0}
  {
    var s := timers + [x];
    assert s[|timers|] == x;
    forall id | id in Expired(timers, t)
      ensures id in Expired(s, t)
    {
      var j :| 0 <= j < |timers| && timers[j].1 <= t && timers[j].0 == id;
      assert s[j] == timers[j];
    }
  }

  /** Due times in scheduling order. */
  predicate SortedDue(timers: seq<(string, nat)>) {
    forall j, k :: 0 <= j < k < |timers| ==> timers[j].1 <= timers[k].1
  }

  /** With due times in order, the timers due at `t` are a prefix: the first `k`, when the next one is later. */
  lemma ExpiredSortedPrefix(timers: seq<(string, nat)>, k: nat, t: nat)
    requires SortedDue(timers) && k <= |timers|
    requires forall j :: 0 <= j < k ==> timers[j].1 <= t
    requires k < |timers| ==> t < timers[k].1
    ensures Expired(timers, t) == Expired(timers[..k], t)
    ensures forall j :: k <= j < |timers| ==> t < timers[j].1
  {
    forall id | id in Expired(timers, t)
      ensures id in Expired(timers[..k], t)
    {
      var j :| 0 <= j < |timers| && timers[j].1 <= t && timers[j].0 == id;
      assert timers[..k][j] == timers[j];
    }
    forall id | id in Expired(timers[..k], t)
      ensures id in Expired(timers, t)
    {
      var j :| 0 <= j < k && timers[..k][j].1 <= t && timers[..k][j].0 == id;
      assert timers[..k][j] == timers[j];
    }
  }

  /** GET /api/image/:id: the bytes with their type and cache header, or 404. */
  datatype GetResponse =
    | Binary(contentType: Json, cacheControl: string, buf: Json)
    | Missing(status: nat, error: string)

  /**
   * Every pending deletion is due within the next TTL, in scheduling order,
   * and every present id still has the deletion its last store scheduled.
   */
  ghost predicate StoreInvariant(entries: map<string, Entry>, insertedAt: map<string, nat>, timers: seq<(string, nat)>, now: nat) {
    && entries.Keys == insertedAt.Keys
    && (forall j :: 0 <= j < |timers| ==> now < timers[j].1 <= now + ImageTtlMs)
    && SortedDue(timers)
    && (forall id :: id in insertedAt ==> insertedAt[id] <= now && (id, insertedAt[id] + ImageTtlMs) in timers)
  }

  /** The timers left after the due prefix fires are still due within a TTL of the new clock, in order. */
  lemma SuffixStillDue(timers: seq<(string, nat)>, now: nat, t: nat, k: nat)
    requires SortedDue(timers) && now <= t && k <= |timers|
    requires forall j :: 0 <= j < |timers| ==> now < timers[j].1 <= now + ImageTtlMs
    requires forall j :: k <= j < |timers| ==> t < timers[j].1
    ensures forall j :: 0 <= j < |timers[k..]| ==> t < timers[k..][j].1 <= t + ImageTtlMs
    ensures SortedDue(timers[k..])
  {
    var rest := timers[k..];
    assert forall j :: 0 <= j < |rest| ==> rest[j] == timers[k + j];
  }

  /** An id whose deletion has not fired still finds it among the remaining timers. */
  lemma SurvivorsKeepTimers(insertedAt: map<string, nat>, timers: seq<(string, nat)>, t: nat, k: nat)
    requires k <= |timers| && Expired(timers, t) == Expired(timers[..k], t)
    requires forall j :: 0 <= j < k ==> timers[j].1 <= t
    requires forall id :: id in insertedAt ==> (id, insertedAt[id] + ImageTtlMs) in timers
    ensures forall id :: id in insertedAt - Expired(timers, t) ==>
      (id, (insertedAt - Expired(timers, t))[id] + ImageTtlMs) in timers[k..]
  {
    var rest := timers[k..];
    var ins := insertedAt - Expired(timers, t);
    forall id | id in ins
      ensures (id, ins[id] + ImageTtlMs) in rest
    {
      var j :| 0 <= j < |timers| && timers[j] == (id, insertedAt[id] + ImageTtlMs);
      assert j >= k;
      assert rest[j - k] == timers[j];
    }
  }

  /** Firing the due prefix of the timers and moving the clock keeps the invariant and removes every expired id. */
  lemma FiringKeepsInvariant(entries: map<string, Entry>, insertedAt: map<string, nat>, timers: seq<(string, nat)>,
                             now: nat, t: nat, k: nat)
    requires StoreInvariant(entries, insertedAt, timers, now) && now <= t && k <= |timers|
    requires forall j :: 0 <= j < k ==> timers[j].1 <= t
    requires k < |timers| ==> t < timers[k].1
    ensures Expired(timers, t) == Expired(timers[..k], t)
    ensures StoreInvariant(entries - Expired(timers, t), insertedAt - Expired(timers, t), timers[k..], t)
    ensures forall id :: id in insertedAt && insertedAt[id] + ImageTtlMs <= t ==> id in Expired(timers, t)
  {
    ExpiredSortedPrefix(timers, k, t);
    SuffixStillDue(timers, now, t, k);
    SurvivorsKeepTimers(insertedAt, timers, t, k);
    forall id | id in insertedAt && insertedAt[id] + ImageTtlMs <= t
      ensures id in Expired(timers, t)
    {
      var j :| 0 <= j < |timers| && timers[j] == (id, insertedAt[id] + ImageTtlMs);
    }
  }

  /** The pending deletions after `setTimeout` schedules `id`'s at `now`. */
  function Schedule(timers: seq<(string, nat)>, id: string, now: nat): seq<(string, nat)> {
    timers + [(id, now + ImageTtlMs)]
  }

  /** Storing an entry and scheduling its deletion keeps the invariant. */
  lemma StoreKeepsInvariant(entries: map<string, Entry>, insertedAt: map<string, nat>, timers: seq<(string, nat)>,
                            now: nat, id: string, e: Entry)
    requires StoreInvariant(entries, insertedAt, timers, now)
    ensures StoreInvariant(entries[id := e], insertedAt[id := now], timers + [(id, now + ImageTtlMs)], now)
  {
    var ts := timers + [(id, now + ImageTtlMs)];
    assert forall x :: x in timers ==> x in ts;
    assert ts[|timers|] == (id, now + ImageTtlMs);
  }

  /** Dropping one more id from a map. */
  lemma MapMinusStep<K, V>(m: map<K, V>, s: set<K>, x: K)
    ensures m - (s + {x}) == (m - s) - {x}
  {
  }

  /** Firing the next due timer removes its id from both maps. */
  lemma FireOne(entries: map<string, Entry>, insertedAt: map<string, nat>, timers: seq<(string, nat)>, k: nat, t: nat)
    requires k < |timers| && timers[k].1 <= t
    ensures entries - Expired(timers[..k + 1], t) == (entries - Expired(timers[..k], t)) - {timers[k].0}
    ensures insertedAt - Expired(timers[..k + 1], t) == (insertedAt - Expired(timers[..k], t)) - {timers[k].0}
  {
    ExpiredSnoc(timers[..k], timers[k], t);
    assert timers[..k + 1] == timers[..k] + [timers[k]];
    MapMinusStep(entries, Expired(timers[..k], t), timers[k].0);
    MapMinusStep(insertedAt, Expired(timers[..k], t), timers[k].0);
  }

  class ImageStore {
    /** `imageStore`, the module-level Map. */
    var entries: map<string, Entry>
    /** When each present id was last stored. */
    var insertedAt: map<string, nat>
    /** Pending deletions, in the order they were scheduled: id and due time. */
    var timers: seq<(string, nat)>
    /** The clock, in milliseconds. */
    var now: nat

    /**
     * Every pending deletion is due within the next TTL, in scheduling order,
     * and every present id still has the deletion its last store scheduled.
     */
    ghost predicate Valid()
      reads this
    {
      StoreInvariant(entries, insertedAt, timers, now)
    }

    constructor ()
      ensures Valid()
      ensures entries == map[] && insertedAt == map[] && timers == [] && now == 0
    {
      entries := map[];
      insertedAt := map[];
      timers := [];
      now := 0;
    }

    /** `storeImage`: a 32-digit hex id, the entry set under it, its deletion scheduled. */
    method Store(bytes: seq<Byte>, buf: Json, mime: Json) returns (id: string)
      requires Valid() && |bytes| == IdBytes
      modifies this
      ensures Valid()
      ensures id == Hex(bytes) && |id| == 32 && IsLowerHex(id)
      ensures entries == old(entries)[id := Entry(buf, mime)]
      ensures insertedAt == old(insertedAt)[id := old(now)]
      ensures timers == Schedule(old(timers), id, old(now))
      ensures now == old(now)
    {
      id := Hex(bytes);
      StoreKeepsInvariant(entries, insertedAt, timers, now, id, Entry(buf, mime));
      entries := entries[id := Entry(buf, mime)];
      insertedAt := insertedAt[id := now];
      timers := timers + [(id, now + ImageTtlMs)];
    }

    /**
     * The clock moves to `t`; every deletion due by then fires, in order, and
     * removes its id whatever was stored under it since.
     */
    method Advance(t: nat)
      requires Valid() && now <= t
      modifies this
      ensures Valid() && now == t
      ensures entries == old(entries) - Expired(old(timers), t)
      ensures insertedAt == old(insertedAt) - Expired(old(timers), t)
      ensures |timers| <= |old(timers)| && timers == old(timers)[|old(timers)| - |timers|..]
      ensures forall j :: 0 <= j < |timers| ==> t < timers[j].1
      ensures forall id :: id in old(insertedAt) && old(insertedAt)[id] + ImageTtlMs <= t ==> id !in entries
    {
      ghost var t0 := timers;
      ghost var e0 := entries;
      ghost var i0 := insertedAt;
      ghost var k := 0;
      while timers != [] && timers[0].1 <= t
        invariant 0 <= k <= |t0| && timers == t0[k..]
        invariant forall j :: 0 <= j < k ==> t0[j].1 <= t
        invariant entries == e0 - Expired(t0[..k], t)
        invariant insertedAt == i0 - Expired(t0[..k], t)
        decreases |timers|
      {
        FireOne(e0, i0, t0, k, t);
        entries := entries - {timers[0].0};
        insertedAt := insertedAt - {timers[0].0};
        timers := timers[1..];
        k := k + 1;
      }
      FiringKeepsInvariant(e0, i0, t0, old(now), t, k);
      now := t;
    }

    /** `imageStore.get(id)`: what is there is never older than the TTL. */
    function Lookup(id: string): (r: Option<Entry>)
      requires Valid()
      reads this
      ensures r.Some? <==> id in entries
      ensures r.Some? ==> r.value == entries[id] && now < insertedAt[id] + ImageTtlMs
    {
      if id in entries then
        var j :| 0 <= j < |timers| && timers[j] == (id, insertedAt[id] + ImageTtlMs);
        Some(entries[id])
      else None
    }

    /** GET /api/image/:id. */
    function Get(id: string): (r: GetResponse)
      requires Valid()
      reads this
      ensures r.Missing? <==> id !in entries
      ensures r.Missing? ==> r == Missing(404, "expired or not found")
      ensures r.Binary? ==> r.buf == entries[id].buf && r.contentType == entries[id].mime && r.cacheControl == CacheControl
    {
      match Lookup(id)
      case None => Missing(404, "expired or not found")
      case Some(e) => Binary(e.mime, CacheControl, e.buf)
    }
  }

  /**
   * The store's promise across time: an image stored under an id no pending
   * deletion names can be fetched exactly until its ten minutes are up.
   */
  method StoreThenAdvance(store: ImageStore, bytes: seq<Byte>, buf: Json, mime: Json, t: nat) returns (id: string)
    requires store.Valid() && |bytes| == IdBytes && store.now <= t
    requires forall j :: 0 <= j < |store.timers| ==> store.timers[j].0 != Hex(bytes)
    modifies store
    ensures store.Valid() && id == Hex(bytes)
    ensures t < old(store.now) + ImageTtlMs ==> store.Get(id) == Binary(mime, CacheControl, buf)
    ensures old(store.now) + ImageTtlMs <= t ==> store.Get(id) == Missing(404, "expired or not found")
  {
    ghost var due := store.now + ImageTtlMs;
    id := store.Store(bytes, buf, mime);
    ghost var pending := store.timers;
    assert pending[|pending| - 1] == (id, due);
    store.Advance(t);
    if t < due {
      assert id !in Expired(pending, t);
    } else {
      assert id in Expired(pending, t);
    }
  }

  // ------------------------------------------------------ POST /api/image

  /** `Buffer.from(value, 'base64')` throws for a value that is not a string, an array or an array-like object. */
  predicate BufferFromThrows(v: Json) {
    match v
    case JStr(_) => false
    case JArr(_) => false
    case JObj(fields) =>
      Lookup(fields, "length").None?
      && !(Lookup(fields, "type") == Some(JStr("Buffer")) && Lookup(fields, "data").Some? && Lookup(fields, "data").value.JArr?)
    case _ => true
  }

  /** `typeof prompt === 'string' && prompt.trim().length > 0`. */
  predicate PromptWins(prompt: JsValue) {
    prompt.Some? && prompt.value.JStr? && Trim(prompt.value.s, IsJsSpace) != []
  }

  /** The image prompt: a prompt string with non-blank trim wins, trimmed and not cut; else the title template. */
  function FinalPrompt(recipeTitle: JsValue, prompt: JsValue): (r: string)
    ensures PromptWins(prompt) ==>
      r != [] && !IsJsSpace(r[0]) && !IsJsSpace(r[|r| - 1]) && Contains(prompt.value.s, r)
    ensures PromptWins(prompt) ==> r == Trim(prompt.value.s, IsJsSpace)
    ensures !PromptWins(prompt) ==> StartsWith(r, TemplateHead) && Contains(r, JsString(recipeTitle))
  {
    if PromptWins(prompt) then
      TrimOccursIn(prompt.value.s, IsJsSpace);
      Trim(prompt.value.s, IsJsSpace)
    else
      InfixOfConcat(TemplateHead, JsString(recipeTitle), TemplateTail);
      TemplateHead + JsString(recipeTitle) + TemplateTail
  }

  /** When the prompt wins, the title has no say in what is sent. */
  lemma FinalPromptIgnoresTitle(title1: JsValue, title2: JsValue, prompt: JsValue)
    requires PromptWins(prompt)
    ensures FinalPrompt(title1, prompt) == FinalPrompt(title2, prompt)
  {
  }

  /** `req.body || {}`: the object the two fields are read from. */
  function RequestFields(body: JsValue): (r: JsValue)
    ensures JsTruthy(r)
  {
    if JsTruthy(body) then body else Some(JObj([]))
  }

  /** `recipeTitle || prompt`: some field asks for an image. */
  predicate ImageRequested(body: JsValue) {
    JsTruthy(JsOptGet(RequestFields(body), "recipeTitle")) || JsTruthy(JsOptGet(RequestFields(body), "prompt"))
  }

  /** The prompt a request body sends to every model of the chain. */
  function BodyPrompt(body: JsValue): string {
    FinalPrompt(JsOptGet(RequestFields(body), "recipeTitle"), JsOptGet(RequestFields(body), "prompt"))
  }

  datatype PostImageResponse =
      /** `{ imageBase64, imageUrl }` */
    | ImageJson(imageBase64: string, imageUrl: string)
      /** `{ imageBase64: null, imageUrl: null }` */
    | NoImageJson
    | Error(status: nat, error: string)

  /**
   * The answer for a found image: its data URL, and a stored copy under a
   * fresh id with a short-lived URL; `Buffer.from` throwing on the data is
   * caught as the route's 500.
   */
  method RespondWithImage(store: ImageStore, img: Image, bytes: seq<Byte>, protocol: string, host: string)
    returns (r: PostImageResponse)
    requires store.Valid() && |bytes| == IdBytes
    modifies store
    ensures store.Valid() && store.now == old(store.now)
    ensures BufferFromThrows(img.data) ==> r == Error(500, "Image request failed") && unchanged(store)
    ensures !BufferFromThrows(img.data) ==>
      && r == ImageJson("data:" + JsString(Some(img.mime)) + ";base64," + JsString(Some(img.data)),
                        protocol + "://" + host + "/api/image/" + Hex(bytes))
      && store.entries == old(store.entries)[Hex(bytes) := Entry(img.data, img.mime)]
      && store.insertedAt == old(store.insertedAt)[Hex(bytes) := old(store.now)]
      && store.timers == Schedule(old(store.timers), Hex(bytes), old(store.now))
  {
    var imageBase64 := "data:" + JsString(Some(img.mime)) + ";base64," + JsString(Some(img.data));
    if BufferFromThrows(img.data) {
      return Error(500, "Image request failed");
    }
    var id := store.Store(bytes, img.data, img.mime);
    r := ImageJson(imageBase64, protocol + "://" + host + "/api/image/" + id);
  }

  /**
   * The body of the route once the key and the request are checked: the
   * chain run on the upstream's answers `up`, then the answer for the first
   * image found, if any.
   */
  method ServeImage(store: ImageStore, up: nat -> Attempt, bytes: seq<Byte>, protocol: string, host: string)
    returns (r: PostImageResponse, invoked: nat)
    requires store.Valid() && |bytes| == IdBytes
    modifies store
    ensures store.Valid()
    ensures r.ImageJson? || r == NoImageJson || r == Error(500, "Image request failed")
    ensures r.Error? || r.NoImageJson? ==> unchanged(store)
    ensures var i := FirstFound(Express, ExpressChain, up, 0);
      && (r == NoImageJson <==> i == |ExpressChain|)
      && (r == NoImageJson ==> invoked == |ExpressChain|)
      && (r == Error(500, "Image request failed") ==>
            i < |ExpressChain| && invoked == i + 1
            && BufferFromThrows(TryStrategy(Express, ExpressChain[i], up(i)).image.data))
      && (r.ImageJson? ==>
            i < |ExpressChain| && invoked == i + 1
            && var img := TryStrategy(Express, ExpressChain[i], up(i)).image;
            && !BufferFromThrows(img.data)
            && r.imageBase64 == "data:" + JsString(Some(img.mime)) + ";base64," + JsString(Some(img.data))
            && r.imageUrl == protocol + "://" + host + "/api/image/" + Hex(bytes)
            && store.entries == old(store.entries)[Hex(bytes) := Entry(img.data, img.mime)]
            && store.insertedAt == old(store.insertedAt)[Hex(bytes) := old(store.now)]
            && store.timers == Schedule(old(store.timers), Hex(bytes), old(store.now))
            && store.now == old(store.now))
  {
    var image;
    image, invoked := FirstSuccess(Express, ExpressChain, up);
    if image.None? {
      return NoImageJson, invoked;
    }
    ghost var i := FirstFound(Express, ExpressChain, up, 0);
    assert i < |ExpressChain| && invoked == i + 1 && TryStrategy(Express, ExpressChain[i], up(i)).image == image.value;
    assert store.timers == old(store.timers) && store.now == old(store.now);
    r := RespondWithImage(store, image.value, bytes, protocol, host);
  }

  /**
   * POST /api/image: the Express chain run on the final prompt, then the
   * first image both as a data URL and as a stored entry with a short-lived
   * URL. `answers(prompt)` is what the upstream answers to requests carrying
   * that prompt.
   */
  method PostImage(store: ImageStore, apiKey: string, body: JsValue, answers: string -> nat -> Attempt,
                   bytes: seq<Byte>, protocol: string, host: string)
    returns (r: PostImageResponse, invoked: nat)
    requires store.Valid() && |bytes| == IdBytes
    modifies store
    ensures store.Valid()
    ensures apiKey == "" ==> r == Error(500, "Missing GEMINI_API_KEY") && invoked == 0
    ensures apiKey != "" && !ImageRequested(body) ==> r == Error(400, "recipeTitle or prompt is required") && invoked == 0
    ensures apiKey != "" && ImageRequested(body) ==>
      r.ImageJson? || r == NoImageJson || r == Error(500, "Image request failed")
    ensures r.Error? || r.NoImageJson? ==> unchanged(store)
    ensures var up := answers(BodyPrompt(body));
      var i := FirstFound(Express, ExpressChain, up, 0);
      apiKey != "" && ImageRequested(body) ==>
        && (r == NoImageJson <==> i == |ExpressChain|)
        && (r == NoImageJson ==> invoked == |ExpressChain|)
        && (r == Error(500, "Image request failed") ==>
              i < |ExpressChain| && invoked == i + 1
              && BufferFromThrows(TryStrategy(Express, ExpressChain[i], up(i)).image.data))
        && (r.ImageJson? ==>
              i < |ExpressChain| && invoked == i + 1
              && var img := TryStrategy(Express, ExpressChain[i], up(i)).image;
              && !BufferFromThrows(img.data)
              && r.imageBase64 == "data:" + JsString(Some(img.mime)) + ";base64," + JsString(Some(img.data))
              && r.imageUrl == protocol + "://" + host + "/api/image/" + Hex(bytes)
              && store.entries == old(store.entries)[Hex(bytes) := Entry(img.data, img.mime)]
              && store.insertedAt == old(store.insertedAt)[Hex(bytes) := old(store.now)]
              && store.timers == Schedule(old(store.timers), Hex(bytes), old(store.now))
              && store.now == old(store.now))
  {
    if apiKey == "" {
      return Error(500, "Missing GEMINI_API_KEY"), 0;
    }
    if !ImageRequested(body) {
      return Error(400, "recipeTitle or prompt is required"), 0;
    }
    r, invoked := ServeImage(store, answers(BodyPrompt(body)), bytes, protocol, host);
  }

  // ------------------------------------------------------------ text routes

  /** `response?.candidates?.[0]?.content?.parts?.[0]?.text || ''`. */
  function RawText(response: JsValue): (r: Json)
    ensures JsTruthy(Some(r)) || r == JStr("")
    ensures JsNullish(response) ==> r == JStr("")
  {
    var text := JsOptGet(JsOptFirst(JsOptGet(JsOptGet(JsOptFirst(JsOptGet(response, "candidates")), "content"), "parts")), "text");
    if JsTruthy(text) then text.value else JStr("")
  }

  /** The well-formed response: the first candidate's first part's text when truthy, else the empty string. */
  lemma RawTextReadsFirstPart(text: Json, moreParts: seq<Json>, moreCandidates: seq<Json>)
    ensures var response := JObj([("candidates", JArr([JObj([("content", JObj([("parts",
                JArr([JObj([("text", text)])] + moreParts))]))])] + moreCandidates))]);
      RawText(Some(response)) == if JsTruthy(Some(text)) then text else JStr("")
  {
  }

  /**
   * The fence-cleaning expression of the recipe routes: both removals, then
   * `trim()`; a text that is not a string has no `replace` and throws.
   */
  function CleanedText(response: JsValue): (r: Result<string, JsError>)
    ensures r.Err? <==> !RawText(response).JStr?
    ensures r.Ok? ==> FenceFree(r.value)
    ensures r.Ok? && r.value != [] ==> !IsJsSpace(r.value[0]) && !IsJsSpace(r.value[|r.value| - 1])
    ensures RawText(response).JStr? && NoBacktick(RawText(response).s) ==> r == Ok(Trim(RawText(response).s, IsJsSpace))
    ensures JsNullish(response) ==> r == Ok("")
  {
    match RawText(response)
    case JStr(s) =>
      TrimKeepsFenceFree(StripFences(s), IsJsSpace);
      Ok(Trim(StripFences(s), IsJsSpace))
    case _ => Err(JsTypeError)
  }

  /** No "```" is left anywhere in the cleaned text. */
  lemma CleanedTextHasNoFence(response: JsValue)
    requires CleanedText(response).Ok?
    ensures !Contains(CleanedText(response).value, Fence)
  {
    FenceFreeHasNoFence(CleanedText(response).value);
  }

  /** A reply fenced as "```json … ```" is cleaned to the trimmed text inside the fence. */
  lemma CleanedTextUnwraps(response: JsValue, s: string)
    requires RawText(response) == JStr("```json" + s + Fence) && NoBacktick(s)
    ensures CleanedText(response) == Ok(Trim(s, IsJsSpace))
  {
    StripFencesUnwraps(s);
  }
}
