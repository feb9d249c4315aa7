/**
  The value-level logic of the page script: how one batch of speech
  recognition results is folded into the running transcript, and how the
  configured backend address is normalised.
*/
module SpeechMerge {
  import opened Text

  /** One entry of a result batch: its best transcript and whether the
      recogniser has committed it. */
  datatype SpeechResult = SpeechResult(transcript: string, isFinal: bool)

  /** Reading one more entry of a window extends the final or the interim
      text by that entry alone. */
  lemma WindowStep(results: seq<SpeechResult>, start: nat, i: nat)
    requires start <= i < |results|
    ensures var r := results[i];
      && FinalText(results[start..i + 1]) == FinalText(results[start..i]) + (if r.isFinal then r.transcript + " " else "")
      && InterimText(results[start..i + 1]) == InterimText(results[start..i]) + (if r.isFinal then "" else r.transcript)
  {
    assert results[start..i + 1][..i - start] == results[start..i];
  }

  /** The entries a result event asks the handler to read: from
      `resultIndex` to the end. */
  function Window(results: seq<SpeechResult>, resultIndex: nat): (w: seq<SpeechResult>)
    ensures |w| == if resultIndex <= |results| then |results| - resultIndex else 0
    ensures forall k :: 0 <= k < |w| ==> w[k] == results[|results| - |w| + k]
  {
    if resultIndex <= |results| then results[resultIndex..] else []
  }

  /** What the handler adds to `fullText` for a run of entries: each final
      transcript followed by a space. */
  function FinalText(rs: seq<SpeechResult>): string
  {
    if rs == [] then ""
    else
      var r := rs[|rs| - 1];
      FinalText(rs[..|rs| - 1]) + (if r.isFinal then r.transcript + " " else "")
  }

  /** The handler's local `interim`: the interim transcripts, concatenated. */
  function InterimText(rs: seq<SpeechResult>): string
  {
    if rs == [] then ""
    else
      var r := rs[|rs| - 1];
      InterimText(rs[..|rs| - 1]) + (if r.isFinal then "" else r.transcript)
  }

  /** The transcripts of the final entries, in order. */
  function Finals(rs: seq<SpeechResult>): seq<string>
  {
    if rs == [] then []
    else
      var r := rs[|rs| - 1];
      Finals(rs[..|rs| - 1]) + (if r.isFinal then [r.transcript] else [])
  }

  /** Each text followed by one space. */
  function Spaced(ts: seq<string>): string
  {
    if ts == [] then "" else Spaced(ts[..|ts| - 1]) + ts[|ts| - 1] + " "
  }

  /** The text a run of entries adds to `fullText` is the final transcripts,
      each followed by a space, in index order; interim entries add nothing. */
  lemma {:induction false} FinalTextIsSpacedFinals(rs: seq<SpeechResult>)
    ensures FinalText(rs) == Spaced(Finals(rs))
  {
    if rs != [] {
      var init := rs[..|rs| - 1];
      FinalTextIsSpacedFinals(init);
      if rs[|rs| - 1].isFinal {
        var fs := Finals(init) + [rs[|rs| - 1].transcript];
        assert fs[..|fs| - 1] == Finals(init);
        var t := rs[|rs| - 1].transcript;
        assert Spaced(fs) == Spaced(Finals(init)) + t + " ";
        assert FinalText(rs) == FinalText(init) + (t + " ");
      } else {
        assert Finals(rs) == Finals(init) + [] == Finals(init);
        assert FinalText(rs) == FinalText(init) + "" == FinalText(init);
      }
    }
  }

  /** Folding two consecutive runs is folding their concatenation. */
  lemma {:induction false} FinalTextAppend(a: seq<SpeechResult>, b: seq<SpeechResult>)
    ensures FinalText(a + b) == FinalText(a) + FinalText(b)
  {
    if b != [] {
      var b' := b[..|b| - 1];
      assert (a + b)[..|a + b| - 1] == a + b';
      assert (a + b)[|a + b| - 1] == b[|b| - 1];
      FinalTextAppend(a, b');
    } else {
      assert a + b == a;
    }
  }

  /** An interim entry, wherever it sits, leaves the final text unchanged. */
  lemma InterimIgnored(a: seq<SpeechResult>, r: SpeechResult, b: seq<SpeechResult>)
    requires !r.isFinal
    ensures FinalText(a + [r] + b) == FinalText(a + b)
  {
    FinalTextAppend(a + [r], b);
    FinalTextAppend(a, [r]);
    FinalTextAppend(a, b);
    assert [r][..0] == [];
  }

  /** The `fullText` a run of result events builds from empty: the final
      transcripts of all their windows, each followed by a space, in order. */
  function RunText(windows: seq<seq<SpeechResult>>): string
  {
    if windows == [] then "" else RunText(windows[..|windows| - 1]) + FinalText(windows[|windows| - 1])
  }

  function Flatten(windows: seq<seq<SpeechResult>>): seq<SpeechResult>
  {
    if windows == [] then [] else Flatten(windows[..|windows| - 1]) + windows[|windows| - 1]
  }

  /** Over any run of result events, `fullText` is the space-terminated final
      transcripts in order, however many interim results came between. */
  lemma {:induction false} RunTextIsSpacedFinals(windows: seq<seq<SpeechResult>>)
    ensures RunText(windows) == Spaced(Finals(Flatten(windows)))
  {
    if windows != [] {
      var init := windows[..|windows| - 1];
      RunTextIsSpacedFinals(init);
      FinalTextAppend(Flatten(init), windows[|windows| - 1]);
      FinalTextIsSpacedFinals(Flatten(init));
      FinalTextIsSpacedFinals(Flatten(windows));
    }
  }

  /** The displayed transcript: committed and interim text, trimmed. */
  function Display(fullText: string, interim: string): (shown: string)
    ensures Stripped(shown)
    ensures |shown| <= |fullText| + |interim|
  {
    Strip(fullText + interim)
  }

  /** The start of the run of `/` that ends at `j`. */
  function SlashRunStart(s: string, j: nat): (k: nat)
    requires j <= |s|
    ensures k <= j
    ensures forall m :: k <= m < j ==> s[m] == '/'
    ensures k == 0 || s[k - 1] != '/'
    decreases j
  {
    if 0 < j && s[j - 1] == '/' then SlashRunStart(s, j - 1) else j
  }

  /** `baseUrl()`: the configured address trimmed, then cut before the run
      of slashes it ends with, however long that run is. */
  function BaseUrl(configured: string): (url: string)
    ensures var v := Strip(configured);
      && url <= v
      && (forall k :: |url| <= k < |v| ==> v[k] == '/')
      && (url == "" || url[|url| - 1] != '/')
      && (v == "" ==> url == "")
  {
    var v := Strip(configured);
    if v != "" then v[..SlashRunStart(v, |v|)] else ""
  }

  /** `api(path)`: the normalised address followed by the path. */
  function Api(configured: string, path: string): string
  {
    BaseUrl(configured) + path
  }

  /** The address and the path of a request URL meet without a doubled
      slash, and a blank address leaves the bare path. */
  lemma ApiSeam(configured: string, path: string)
    requires path != "" && path[0] == '/'
    ensures var b := BaseUrl(configured);
      && Api(configured, path)[..|b|] == b
      && Api(configured, path)[|b|..] == path
      && (b != "" ==> Api(configured, path)[|b| - 1] != '/')
      && (Strip(configured) == "" ==> Api(configured, path) == path)
  {
  }
}
