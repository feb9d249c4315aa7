/**
  The value-level logic behind the server's `/transcribe_chunk` handler:
  how the transcriber's segment texts become one partial text, how a
  session record absorbs a chunk, the duplicate-chunk rule, and the
  choice of upload file suffix.
*/
module ChunkSessions {
  import opened Text

  /** A `SESSIONS` record: the accumulated transcript and the index of the
      last chunk applied (-1 before any). */
  datatype Session = Session(text: string, lastChunk: int)

  /** The record `new_session` stores. */
  const NewRecord := Session("", -1)

  /** What every record in the table satisfies: the text has no whitespace
      at its ends, and it is empty until a chunk has been applied. */
  predicate WellFormed(s: Session) {
    Stripped(s.text) && s.lastChunk >= -1 && (s.lastChunk == -1 ==> s.text == "")
  }

  /** A segment whose text strips to nothing. */
  predicate Blank(segment: string) {
    Strip(segment) == ""
  }

  /** The `parts` list: each segment stripped, blank ones dropped, in order. */
  function Parts(segments: seq<string>): (parts: seq<string>)
    ensures Tidy(parts)
    ensures |parts| <= |segments|
  {
    if segments == [] then []
    else
      var t := Strip(segments[|segments| - 1]);
      Parts(segments[..|segments| - 1]) + (if t != "" then [t] else [])
  }

  /** The segment loop of the handler, appending to `parts` one segment at a time. */
  method CollectParts(segments: seq<string>) returns (parts: seq<string>)
    ensures parts == Parts(segments)
  {
    parts := [];
    var i := 0;
    while i < |segments|
      invariant 0 <= i <= |segments|
      invariant parts == Parts(segments[..i])
    {
      var t := Strip(segments[i]);
      if t != "" {
        parts := parts + [t];
      }
      assert segments[..i + 1][..i] == segments[..i];
      i := i + 1;
    }
    assert segments[..i] == segments;
  }

  /** Filtering segments respects concatenation, so the kept parts appear
      in their original order. */
  lemma {:induction false} PartsAppend(a: seq<string>, b: seq<string>)
    ensures Parts(a + b) == Parts(a) + Parts(b)
  {
    if b != [] {
      var b' := b[..|b| - 1];
      assert (a + b)[..|a + b| - 1] == a + b';
      assert (a + b)[|a + b| - 1] == b[|b| - 1];
      PartsAppend(a, b');
    } else {
      assert a + b == a;
    }
  }

  /** No part is kept exactly when every segment is blank. */
  lemma {:induction false} PartsEmptyIffAllBlank(segments: seq<string>)
    ensures Parts(segments) == [] <==> forall k :: 0 <= k < |segments| ==> Blank(segments[k])
  {
    if segments != [] {
      var init := segments[..|segments| - 1];
      PartsEmptyIffAllBlank(init);
      forall k | 0 <= k < |init| ensures init[k] == segments[k] { }
    }
  }

  /** `partial_text`: the space-join of the parts, stripped. */
  function PartialText(segments: seq<string>): (r: string)
  {
    Strip(JoinSpaces(Parts(segments)))
  }

  /** The closing `strip()` of `partial_text` is a no-op: the partial text is
      the plain join of the kept parts, has no whitespace at its ends, and
      is empty exactly when every segment is blank. */
  lemma PartialTextShape(segments: seq<string>)
    ensures PartialText(segments) == JoinSpaces(Parts(segments))
    ensures Stripped(PartialText(segments))
    ensures PartialText(segments) == "" <==> forall k :: 0 <= k < |segments| ==> Blank(segments[k])
  {
    JoinTidy(Parts(segments));
    StripStripped(JoinSpaces(Parts(segments)));
    PartsEmptyIffAllBlank(segments);
  }

  /** The session text after an upload: unchanged for an empty partial
      text, otherwise the old text, one space and the partial text, with
      whitespace cut from both ends of the result. */
  function AppendText(text: string, partial: string): string
  {
    if partial != "" then Strip(text + " " + partial) else text
  }

  /** Session text is append-only: an empty partial leaves it alone, a first
      partial replaces the empty text, a later one is added after one space.
      The old text is a prefix and no whitespace appears at the ends. */
  lemma AppendTextShape(text: string, partial: string)
    requires Stripped(text) && Stripped(partial)
    ensures AppendText(text, partial) ==
              if partial == "" then text
              else if text == "" then partial
              else text + " " + partial
    ensures text <= AppendText(text, partial)
    ensures Stripped(AppendText(text, partial))
    ensures AppendText(text, partial) == "" <==> text == "" && partial == ""
  {
    if partial != "" {
      StripJoin(text, partial);
      if text != "" {
        var r := text + " " + partial;
        assert r[..|text|] == text;
        assert r[0] == text[0] && r[|r| - 1] == partial[|partial| - 1];
      }
    }
  }

  /** Appending is associative, with "" as its unit on both sides. */
  lemma AppendTextAssoc(t: string, p: string, q: string)
    requires Stripped(t) && Stripped(p) && Stripped(q)
    ensures AppendText(AppendText(t, p), q) == AppendText(t, AppendText(p, q))
  {
    AppendTextShape(t, p);
    AppendTextShape(p, q);
    AppendTextShape(AppendText(t, p), q);
    AppendTextShape(t, AppendText(p, q));
  }

  /** Joining two non-empty lists of parts puts one space between the joins. */
  lemma {:induction false} JoinConcat(xs: seq<string>, ys: seq<string>)
    requires xs != [] && ys != []
    ensures JoinSpaces(xs + ys) == JoinSpaces(xs) + " " + JoinSpaces(ys)
  {
    if |ys| == 1 {
      JoinSnoc(xs, ys[0]);
    } else {
      var ys' := ys[..|ys| - 1];
      var y := ys[|ys| - 1];
      assert xs + ys == (xs + ys') + [y];
      assert ys == ys' + [y];
      JoinSnoc(xs + ys', y);
      JoinConcat(xs, ys');
      JoinSnoc(ys', y);
    }
  }

  /** The partial text of two runs of segments is the first one's partial
      text with the second's appended. */
  lemma PartialTextAppend(a: seq<string>, b: seq<string>)
    ensures PartialText(a + b) == AppendText(PartialText(a), PartialText(b))
  {
    PartsAppend(a, b);
    PartialTextShape(a);
    PartialTextShape(b);
    PartialTextShape(a + b);
    AppendTextShape(PartialText(a), PartialText(b));
    var pa, pb := Parts(a), Parts(b);
    JoinTidy(pa);
    JoinTidy(pb);
    if pa != [] && pb != [] {
      JoinConcat(pa, pb);
    } else if pa == [] {
      assert pa + pb == pb;
    } else {
      assert pa + pb == pa;
    }
  }

  /** A chunk against one record: dropped when its index is not past
      `last_chunk`, otherwise its partial text is appended and `last_chunk`
      moves to its index. */
  function ApplyChunk(s: Session, chunkIndex: int, partial: string): Session
  {
    if chunkIndex <= s.lastChunk then s
    else Session(AppendText(s.text, partial), chunkIndex)
  }

  /** One chunk keeps a record well formed; a duplicate or out-of-order chunk
      changes nothing; an accepted one sets `last_chunk` to its index, so
      `last_chunk` never decreases, and it only extends the text. */
  lemma ApplyChunkStep(s: Session, chunkIndex: int, partial: string)
    requires WellFormed(s) && Stripped(partial)
    ensures WellFormed(ApplyChunk(s, chunkIndex, partial))
    ensures chunkIndex <= s.lastChunk ==> ApplyChunk(s, chunkIndex, partial) == s
    ensures chunkIndex > s.lastChunk ==> ApplyChunk(s, chunkIndex, partial).lastChunk == chunkIndex
    ensures ApplyChunk(s, chunkIndex, partial).lastChunk >= s.lastChunk
    ensures s.text <= ApplyChunk(s, chunkIndex, partial).text
  {
    AppendTextShape(s.text, partial);
  }

  /** Taken one request at a time, a repeated chunk index is never applied
      twice, whatever the second delivery's text. */
  lemma ApplyChunkOnce(s: Session, chunkIndex: int, p: string, q: string)
    ensures ApplyChunk(ApplyChunk(s, chunkIndex, p), chunkIndex, q) == ApplyChunk(s, chunkIndex, p)
  {
  }

  /** The update of lines 130-133 on its own, made to the record as it is
      when the upload resumes after reading its audio, with no second look
      at `last_chunk`. */
  function Commit(s: Session, chunkIndex: int, partial: string): Session
  {
    Session(AppendText(s.text, partial), chunkIndex)
  }

  /** Two uploads of the same index that both pass the duplicate check
      before either commits both append their text, where the atomic
      update keeps only the first. */
  lemma {:induction false} OverlappingDuplicate(s: Session, chunkIndex: int, p: string, q: string)
    requires WellFormed(s) && chunkIndex > s.lastChunk
    requires p != "" && q != "" && Stripped(p) && Stripped(q)
    ensures Commit(Commit(s, chunkIndex, p), chunkIndex, q).text == AppendText(AppendText(s.text, p), q)
    ensures ApplyChunk(ApplyChunk(s, chunkIndex, p), chunkIndex, q).text == AppendText(s.text, p)
    ensures Commit(Commit(s, chunkIndex, p), chunkIndex, q) != ApplyChunk(ApplyChunk(s, chunkIndex, p), chunkIndex, q)
  {
    AppendTextShape(s.text, p);
    var t := AppendText(s.text, p);
    AppendTextShape(t, q);
    assert |AppendText(t, q)| > |t|;
  }

  /** Two overlapping uploads that commit in the opposite order of their
      indices leave `last_chunk` at the smaller index, so a later upload of
      the larger index is applied a second time. */
  lemma OverlappingReorder(s: Session, i: int, j: int, p: string, q: string)
    requires j < i
    ensures Commit(Commit(s, i, p), j, q).lastChunk == j
    ensures ApplyChunk(Commit(Commit(s, i, p), j, q), i, p).lastChunk == i
    ensures ApplyChunk(ApplyChunk(s, i, p), j, q).lastChunk >= i
  {
  }

  /** One upload to the same session: its index and the transcriber's segments. */
  datatype Chunk = Chunk(index: int, segments: seq<string>)

  /** The record after a run of uploads, in arrival order. */
  function Replay(s: Session, chunks: seq<Chunk>): Session
    decreases |chunks|
  {
    if chunks == [] then s
    else Replay(ApplyChunk(s, chunks[0].index, PartialText(chunks[0].segments)), chunks[1..])
  }

  /** The uploads of a run that were applied, in arrival order. */
  function Accepted(s: Session, chunks: seq<Chunk>): seq<Chunk>
    decreases |chunks|
  {
    if chunks == [] then []
    else
      var s' := ApplyChunk(s, chunks[0].index, PartialText(chunks[0].segments));
      (if chunks[0].index > s.lastChunk then [chunks[0]] else []) + Accepted(s', chunks[1..])
  }

  /** All segments of a list of uploads, in order. */
  function AllSegments(chunks: seq<Chunk>): seq<string>
    decreases |chunks|
  {
    if chunks == [] then [] else chunks[0].segments + AllSegments(chunks[1..])
  }

  /** Every index in the list is past `bound`. */
  predicate AllAbove(acc: seq<Chunk>, bound: int) {
    forall i :: 0 <= i < |acc| ==> acc[i].index > bound
  }

  /** The indices in the list strictly increase. */
  predicate Increasing(acc: seq<Chunk>) {
    forall i, j :: 0 <= i < j < |acc| ==> acc[i].index < acc[j].index
  }

  lemma ConsIncreasing(c: Chunk, rest: seq<Chunk>)
    requires AllAbove(rest, c.index) && Increasing(rest)
    ensures Increasing([c] + rest)
  {
    var acc := [c] + rest;
    forall i, j | 0 <= i < j < |acc| ensures acc[i].index < acc[j].index {
      assert acc[j] == rest[j - 1];
      if i > 0 {
        assert acc[i] == rest[i - 1];
      }
    }
  }

  /** The first step of a run: the applied list is the first upload, when
      it is applied, followed by the rest of the run's applied list. */
  lemma AcceptedUnfold(s: Session, chunks: seq<Chunk>)
    requires chunks != []
    ensures var c := chunks[0];
      var s' := ApplyChunk(s, c.index, PartialText(c.segments));
      && s'.lastChunk == (if c.index > s.lastChunk then c.index else s.lastChunk)
      && Accepted(s, chunks) == (if c.index > s.lastChunk then [c] else []) + Accepted(s', chunks[1..])
  {
  }

  /** Over any run, every applied index is past the starting `last_chunk`. */
  lemma {:induction false} AcceptedAbove(s: Session, chunks: seq<Chunk>)
    ensures AllAbove(Accepted(s, chunks), s.lastChunk)
    decreases |chunks|
  {
    if chunks != [] {
      var c := chunks[0];
      var s' := ApplyChunk(s, c.index, PartialText(c.segments));
      AcceptedUnfold(s, chunks);
      AcceptedAbove(s', chunks[1..]);
    }
  }

  /** Over any run of uploads taken one at a time, the applied indices
      strictly increase: a repeated or older index is never applied. */
  lemma {:induction false} AcceptedIncreasing(s: Session, chunks: seq<Chunk>)
    ensures Increasing(Accepted(s, chunks))
    decreases |chunks|
  {
    if chunks != [] {
      var c := chunks[0];
      var s' := ApplyChunk(s, c.index, PartialText(c.segments));
      AcceptedUnfold(s, chunks);
      AcceptedIncreasing(s', chunks[1..]);
      if c.index > s.lastChunk {
        AcceptedAbove(s', chunks[1..]);
        ConsIncreasing(c, Accepted(s', chunks[1..]));
      } else {
        assert Accepted(s, chunks) == [] + Accepted(s', chunks[1..]);
      }
    }
  }

  /** After any run, `last_chunk` is the last applied index, or unchanged
      when nothing was applied. */
  lemma {:induction false} ReplayLastChunk(s: Session, chunks: seq<Chunk>)
    ensures var acc := Accepted(s, chunks);
      Replay(s, chunks).lastChunk == (if acc == [] then s.lastChunk else acc[|acc| - 1].index)
    decreases |chunks|
  {
    if chunks != [] {
      var c := chunks[0];
      var s' := ApplyChunk(s, c.index, PartialText(c.segments));
      AcceptedUnfold(s, chunks);
      ReplayLastChunk(s', chunks[1..]);
      if c.index <= s.lastChunk {
        assert Accepted(s, chunks) == [] + Accepted(s', chunks[1..]);
      }
    }
  }

  /** Over any run, the session text is the old text with the partial text
      of all applied uploads' segments appended once. */
  lemma {:induction false} ReplayText(s: Session, chunks: seq<Chunk>)
    requires WellFormed(s)
    ensures WellFormed(Replay(s, chunks))
    ensures Replay(s, chunks).text == AppendText(s.text, PartialText(AllSegments(Accepted(s, chunks))))
    decreases |chunks|
  {
    if chunks == [] {
      PartsEmptyIffAllBlank([]);
      PartialTextShape([]);
    } else {
      var c := chunks[0];
      var p := PartialText(c.segments);
      var s' := ApplyChunk(s, c.index, p);
      var rest := AllSegments(Accepted(s', chunks[1..]));
      PartialTextShape(c.segments);
      PartialTextShape(rest);
      ApplyChunkStep(s, c.index, p);
      ReplayText(s', chunks[1..]);
      if c.index > s.lastChunk {
        assert AllSegments(Accepted(s, chunks)) == c.segments + rest by {
          assert Accepted(s, chunks) == [c] + Accepted(s', chunks[1..]);
          assert ([c] + Accepted(s', chunks[1..]))[1..] == Accepted(s', chunks[1..]);
        }
        AppendTextAssoc(s.text, p, PartialText(rest));
        PartialTextAppend(c.segments, rest);
      } else {
        assert Accepted(s, chunks) == Accepted(s', chunks[1..]);
      }
    }
  }

  /** Starting from a new record, the session text is exactly the space-join
      of every non-blank stripped segment of the applied uploads. */
  lemma ReplayFromNew(chunks: seq<Chunk>)
    ensures Replay(NewRecord, chunks).text == JoinSpaces(Parts(AllSegments(Accepted(NewRecord, chunks))))
  {
    var segs := AllSegments(Accepted(NewRecord, chunks));
    ReplayText(NewRecord, chunks);
    PartialTextShape(segs);
    AppendTextShape("", PartialText(segs));
  }

  /** The audio extensions the upload keeps; anything else is stored as `.webm`. */
  const AudioExtensions: seq<string> := [".wav", ".mp3", ".m4a", ".ogg"]

  /** The suffix for the temporary upload file, chosen from the lower-cased
      file name (a missing name counts as ""). */
  function UploadSuffix(filename: string): (suffix: string)
    ensures suffix in AudioExtensions || suffix == ".webm"
    ensures forall e | e in AudioExtensions :: suffix == e <==> EndsWith(Lower(filename), e)
    ensures suffix == ".webm" <==> forall e | e in AudioExtensions :: !EndsWith(Lower(filename), e)
  {
    var name := Lower(filename);
    if EndsWith(name, ".wav") then ".wav"
    else if EndsWith(name, ".mp3") then ".mp3"
    else if EndsWith(name, ".m4a") then ".m4a"
    else if EndsWith(name, ".ogg") then ".ogg"
    else ".webm"
  }
}
