/**
  The page script's live-interview state: the committed transcript
  `fullText`, the recogniser handle `rec`, and the text of the transcript,
  answer and status elements. The browser's recogniser is foreign: the
  page only records how it configured it, and result events arrive as
  explicit calls to `OnResult`.
*/
module LivePage {
  import opened Text
  import opened Wrappers
  import opened SpeechMerge

  /** How `startSTT` configures the recogniser. */
  datatype Recognizer = Recognizer(continuous: bool, interimResults: bool, lang: string)

  const ListeningRecognizer := Recognizer(true, true, "en-US")

  const UnsupportedStatus := "WebSpeech not supported in this browser. Use Chrome."
  const ListeningStatus := "Listening..."
  const ClearedStatus := "Cleared."
  const GeneratingStatus := "Generating answer..."
  const SpeakFirstAnswer := "Speak first so transcript has text."
  const ThinkingAnswer := "Thinking..."

  /** The body the Generate button posts. */
  datatype AnswerRequest = AnswerRequest(transcript: string, resume: string, answerTone: string)

  class Page {
    var fullText: string
    var rec: Option<Recognizer>
    var transcript: string
    var answer: string
    var status: string

    /** The script's initial state, with empty page elements. */
    constructor ()
      ensures fullText == "" && rec == None
      ensures transcript == "" && answer == "" && status == ""
    {
      fullText, rec := "", None;
      transcript, answer, status := "", "", "";
    }

    /** `startSTT`. Without a recogniser it only reports that; otherwise it
        clears the committed and displayed transcript before any result
        arrives and installs a continuous recogniser with interim results.
        A recogniser already running is replaced, not stopped. */
    method StartSTT(supported: bool)
      modifies this
      ensures !supported ==> status == UnsupportedStatus
      ensures !supported ==> fullText == old(fullText) && transcript == old(transcript) && rec == old(rec)
      ensures supported ==> fullText == "" && transcript == "" && status == ListeningStatus
      ensures supported ==> rec == Some(ListeningRecognizer)
      ensures answer == old(answer)
    {
      if !supported {
        status := UnsupportedStatus;
        return;
      }
      fullText := "";
      transcript := "";
      status := ListeningStatus;
      rec := Some(ListeningRecognizer);
    }

    /** `rec.onresult`: reads the entries from `resultIndex` on, appends
        every final transcript and a space to `fullText`, collects the
        interim ones, and shows both trimmed. The old `fullText` is a prefix
        of the new one. */
    method OnResult(results: seq<SpeechResult>, resultIndex: nat)
      modifies this
      ensures fullText == old(fullText) + FinalText(Window(results, resultIndex))
      ensures transcript == Display(fullText, InterimText(Window(results, resultIndex)))
      ensures old(fullText) <= fullText
      ensures rec == old(rec) && answer == old(answer) && status == old(status)
    {
      var interim := "";
      var start := if resultIndex <= |results| then resultIndex else |results|;
      var i := start;
      while i < |results|
        invariant start <= i <= |results|
        invariant fullText == old(fullText) + FinalText(results[start..i])
        invariant interim == InterimText(results[start..i])
        invariant rec == old(rec) && answer == old(answer) && status == old(status)
      {
        var txt := results[i].transcript;
        WindowStep(results, start, i);
        if results[i].isFinal {
          fullText := fullText + txt + " ";
        } else {
          interim := interim + txt;
        }
        i := i + 1;
      }
      assert results[start..i] == Window(results, resultIndex);
      transcript := Strip(fullText + interim);
    }

    /** `stopSTT`: asks the recogniser to stop (its failure is swallowed) and
        drops the handle; nothing else changes, so stopping twice is
        stopping once. */
    method StopSTT()
      modifies this
      ensures rec == None
      ensures fullText == old(fullText) && transcript == old(transcript)
      ensures answer == old(answer) && status == old(status)
    {
      rec := None;
    }

    /** The Clear button: empties the transcript, the answer and `fullText`;
        the recogniser keeps running. */
    method Clear()
      modifies this
      ensures transcript == "" && answer == "" && fullText == ""
      ensures status == ClearedStatus
      ensures rec == old(rec)
    {
      transcript := "";
      answer := "";
      fullText := "";
      status := ClearedStatus;
    }

    /** The Generate button up to the request: with a blank transcript it
        asks the user to speak first and sends nothing; otherwise it reports
        progress and returns the body to post, holding the trimmed
        transcript, resume and tone (a missing tone counts as `"medium"`). */
    method Generate(resume: string, tone: string) returns (request: Option<AnswerRequest>)
      modifies this
      ensures request.None? <==> Strip(old(transcript)) == ""
      ensures request.None? ==> answer == SpeakFirstAnswer && status == old(status)
      ensures request.Some? ==> request.value == AnswerRequest(Strip(old(transcript)), Strip(resume),
                                                               Strip(if tone == "" then "medium" else tone))
      ensures request.Some? ==> answer == ThinkingAnswer && status == GeneratingStatus
      ensures fullText == old(fullText) && transcript == old(transcript) && rec == old(rec)
    {
      var t := Strip(transcript);
      var r := Strip(resume);
      var tn := Strip(if tone == "" then "medium" else tone);
      if t == "" {
        answer := SpeakFirstAnswer;
        return None;
      }
      status := GeneratingStatus;
      answer := ThinkingAnswer;
      request := Some(AnswerRequest(t, r, tn));
    }
  }
}
