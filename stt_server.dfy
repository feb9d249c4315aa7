/**
  The transcription server's module state: the `SESSIONS` table and the
  `MODEL_CACHE` of loaded transcription models, with the operations that
  update them in place (`new_session`, `get_whisper`, `transcribe_chunk`).
  The transcriber itself is foreign: a loaded model is an opaque record of
  the arguments it was built with, and its output for an upload is the
  list of segment texts the handler receives.
*/
module SttServer {
  import opened Text
  import opened ChunkSessions

  const SupportedWhisperModels: seq<string> := ["base", "small", "medium", "large-v3-turbo", "large-v3"]
  const WhisperDevice := "cpu"
  const WhisperCompute := "int8"

  /** Stands for a loaded transcription model. */
  datatype WhisperModel = WhisperModel(name: string, device: string, computeType: string)

  /** The model the server builds for a supported name. */
  function LoadModel(name: string): WhisperModel
  {
    WhisperModel(name, WhisperDevice, WhisperCompute)
  }

  /** The name `get_whisper` looks up: the stripped argument when it is a
      supported model, `"base"` otherwise (a missing name counts as ""). */
  function NormalizeModelName(modelName: string): (name: string)
    ensures name in SupportedWhisperModels
    ensures Strip(modelName) in SupportedWhisperModels ==> name == Strip(modelName)
    ensures Strip(modelName) !in SupportedWhisperModels ==> name == "base"
  {
    var name := Strip(modelName);
    if name in SupportedWhisperModels then name else "base"
  }

  /** Normalising twice is normalising once: no supported name has
      whitespace at its ends. */
  lemma NormalizeModelNameIdempotent(modelName: string)
    ensures NormalizeModelName(NormalizeModelName(modelName)) == NormalizeModelName(modelName)
  {
    var name := NormalizeModelName(modelName);
    assert Stripped(name);
    StripStripped(name);
  }

  /** Every model in the cache is stored under its own supported name. */
  predicate CacheValid(cache: map<string, WhisperModel>) {
    forall n | n in cache :: n in SupportedWhisperModels && cache[n] == LoadModel(n)
  }

  /** What `get_whisper` returns and the cache it leaves: a cached model is
      returned as it is, an uncached one is loaded and stored under the
      normalised name. */
  function CacheLookup(cache: map<string, WhisperModel>, modelName: string): (r: (WhisperModel, map<string, WhisperModel>))
    ensures var name := NormalizeModelName(modelName);
      && name in r.1 && r.1[name] == r.0
      && (name in cache ==> r.1 == cache)
      && (name !in cache ==> r.1 == cache[name := LoadModel(name)])
  {
    var name := NormalizeModelName(modelName);
    if name in cache then (cache[name], cache)
    else
      var m := LoadModel(name);
      (m, cache[name := m])
  }

  /** A lookup keeps the cache valid, returns the model built for the
      normalised name, and never drops an entry. */
  lemma CacheLookupValid(cache: map<string, WhisperModel>, modelName: string)
    requires CacheValid(cache)
    ensures CacheValid(CacheLookup(cache, modelName).1)
    ensures CacheLookup(cache, modelName).0 == LoadModel(NormalizeModelName(modelName))
    ensures cache.Keys <= CacheLookup(cache, modelName).1.Keys
    ensures CacheLookup(cache, modelName).1.Keys <= cache.Keys + {NormalizeModelName(modelName)}
  {
  }

  /** A second lookup of a name, or of any name normalising to the same
      model, adds no entry and returns the model the first one returned. */
  lemma CacheLookupTwice(cache: map<string, WhisperModel>, a: string, b: string)
    requires NormalizeModelName(a) == NormalizeModelName(b)
    ensures var (m, cache') := CacheLookup(cache, a);
      CacheLookup(cache', b) == (m, cache')
  {
  }

  /** Strings longer than every key: the table can always take a new id. */
  ghost function MaxKeyLength(keys: set<string>): (n: nat)
    ensures forall k | k in keys :: |k| <= n
    decreases |keys|
  {
    if keys == {} then 0
    else
      var k :| k in keys;
      var n := MaxKeyLength(keys - {k});
      if |k| > n then |k| else n
  }

  lemma UnusedIdExists(keys: set<string>) returns (id: string)
    ensures id !in keys && id != ""
  {
    id := seq(MaxKeyLength(keys) + 1, _ => 'x');
  }

  /** Every record in the table is well formed and keyed by a non-empty id. */
  predicate TableValid(sessions: map<string, Session>) {
    forall sid | sid in sessions :: sid != "" && WellFormed(sessions[sid])
  }

  lemma TableValidUpdate(sessions: map<string, Session>, sid: string, rec: Session)
    requires TableValid(sessions) && sid != "" && WellFormed(rec)
    ensures TableValid(sessions[sid := rec])
  {
  }

  /** A session id the handler keeps: non-empty and in the table. */
  predicate Known(sessions: map<string, Session>, sessionId: string) {
    sessionId != "" && sessionId in sessions
  }

  /** The table once the handler has settled on session `sid` for the
      requested `sessionId`. */
  function Opened(sessions: map<string, Session>, sessionId: string, sid: string): map<string, Session>
  {
    if Known(sessions, sessionId) then sessions else sessions[sid := NewRecord]
  }

  /** The reply of `/transcribe_chunk`. */
  datatype ChunkReply = ChunkReply(sessionId: string, text: string, partial: string)

  class Server {
    var sessions: map<string, Session>
    var modelCache: map<string, WhisperModel>

    ghost predicate Valid()
      reads this
    {
      TableValid(sessions) && CacheValid(modelCache)
    }

    /** The server at start-up: no sessions, no loaded models. */
    constructor ()
      ensures Valid() && sessions == map[] && modelCache == map[]
    {
      sessions := map[];
      modelCache := map[];
    }

    /** `new_session`: stores an empty record under an id not yet in use
        (a random UUID in the server) and leaves every other record alone. */
    method NewSession() returns (sid: string)
      requires Valid()
      modifies this
      ensures Valid()
      ensures sid != "" && sid !in old(sessions)
      ensures sessions == old(sessions)[sid := NewRecord]
      ensures modelCache == old(modelCache)
    {
      ghost var unused := UnusedIdExists(sessions.Keys);
      sid :| sid !in sessions && sid != "";
      sessions := sessions[sid := NewRecord];
    }

    /** `get_whisper`: the cached model for the normalised name, loading and
        caching it first when it is missing. */
    method GetWhisper(modelName: string) returns (m: WhisperModel)
      requires Valid()
      modifies this
      ensures Valid()
      ensures (m, modelCache) == CacheLookup(old(modelCache), modelName)
      ensures sessions == old(sessions)
    {
      CacheLookupValid(modelCache, modelName);
      var name := NormalizeModelName(modelName);
      if name in modelCache {
        return modelCache[name];
      }
      m := LoadModel(name);
      modelCache := modelCache[name := m];
    }

    /** The first step of `/transcribe_chunk`: an empty or unknown session id
        is replaced by a new session, a known one is kept. */
    method ResolveSession(sessionId: string) returns (sid: string)
      requires Valid()
      modifies this
      ensures Valid()
      ensures sid in sessions && sessions == Opened(old(sessions), sessionId, sid)
      ensures Known(old(sessions), sessionId) ==> sid == sessionId
      ensures !Known(old(sessions), sessionId) ==> sid != "" && sid !in old(sessions)
      ensures modelCache == old(modelCache)
    {
      sid := sessionId;
      if sid == "" || sid !in sessions {
        sid := NewSession();
      }
    }

    /** The rest of `/transcribe_chunk`, on a session that exists: a chunk
        whose index is not past the record's `last_chunk` is answered with
        the stored text and changes nothing; otherwise the model is fetched,
        the non-blank stripped segment texts are joined into the partial
        text, the partial text is appended to the record's text and
        `last_chunk` becomes the chunk's index. */
    method ApplyUpload(sid: string, chunkIndex: int, filename: string,
                       modelName: string, segments: seq<string>)
      returns (reply: ChunkReply)
      requires Valid() && sid in sessions
      modifies this
      ensures Valid()
      ensures reply.sessionId == sid
      ensures var rec := old(sessions)[sid];
              if chunkIndex <= rec.lastChunk then
                && sessions == old(sessions)
                && reply.text == rec.text && reply.partial == ""
                && modelCache == old(modelCache)
              else
                && reply.partial == PartialText(segments)
                && sessions == old(sessions)[sid := ApplyChunk(rec, chunkIndex, reply.partial)]
                && reply.text == sessions[sid].text
                && modelCache == CacheLookup(old(modelCache), modelName).1
    {
      var sess := sessions[sid];
      if chunkIndex <= sess.lastChunk {
        return ChunkReply(sid, sess.text, "");
      }
      // Names the temporary file the audio is written to.
      var suffix := UploadSuffix(filename);
      var whisper := GetWhisper(modelName);
      var parts := CollectParts(segments);
      var partial := Strip(JoinSpaces(parts));
      PartialTextShape(segments);
      StoreChunk(sid, chunkIndex, partial);
      reply := ChunkReply(sid, sessions[sid].text, partial);
    }

    /** The tail of `/transcribe_chunk` for an accepted chunk: a non-empty
        partial text is appended to the record's text, then `last_chunk`
        becomes the chunk's index. */
    method StoreChunk(sid: string, chunkIndex: int, partial: string)
      requires Valid() && sid in sessions && Stripped(partial)
      requires chunkIndex > sessions[sid].lastChunk
      modifies this
      ensures Valid()
      ensures sessions == old(sessions)[sid := ApplyChunk(old(sessions)[sid], chunkIndex, partial)]
      ensures modelCache == old(modelCache)
    {
      var sess := sessions[sid];
      ApplyChunkStep(sess, chunkIndex, partial);
      TableValidUpdate(sessions, sid, ApplyChunk(sess, chunkIndex, partial));
      if partial != "" {
        sessions := sessions[sid := sess.(text := AppendText(sess.text, partial))];
      }
      sessions := sessions[sid := sessions[sid].(lastChunk := chunkIndex)];
    }

    /** `/transcribe_chunk`. `segments` is what the transcriber returned for
        this upload. The reply's session id is always in the table. */
    method TranscribeChunk(sessionId: string, chunkIndex: int, filename: string,
                           modelName: string, segments: seq<string>)
      returns (reply: ChunkReply)
      requires Valid()
      modifies this
      ensures Valid()
      ensures reply.sessionId in sessions
      ensures Known(old(sessions), sessionId) ==> reply.sessionId == sessionId
      ensures !Known(old(sessions), sessionId) ==> reply.sessionId != "" && reply.sessionId !in old(sessions)
      ensures var before := Opened(old(sessions), sessionId, reply.sessionId);
              var rec := before[reply.sessionId];
              if chunkIndex <= rec.lastChunk then
                && sessions == before
                && reply.text == rec.text && reply.partial == ""
                && modelCache == old(modelCache)
              else
                && reply.partial == PartialText(segments)
                && sessions == before[reply.sessionId := ApplyChunk(rec, chunkIndex, reply.partial)]
                && reply.text == sessions[reply.sessionId].text
                && modelCache == CacheLookup(old(modelCache), modelName).1
    {
      var sid := ResolveSession(sessionId);
      reply := ApplyUpload(sid, chunkIndex, filename, modelName, segments);
    }
  }
}
