/** The read-back side (`TextToSpeech`): `speak` puts texts in a bounded FIFO.
    The host calls `runTextToSpeech` periodically. When no synthesis thread is
    alive, it takes the head text and starts one thread. That thread wraps the
    text in SSML, has it synthesised, reports the billed characters and plays
    the audio. The thread is the `thread` field, and its body is the separate
    step `CompleteSpeech`, whose synthesis and playback outcomes are parameters. */
module Speech {
  import opened Host
  import Strings

  /** `maxQueueSize`: `speak` accepts while the queue holds at most this many texts. */
  const MAX_QUEUE_SIZE: nat := 10

  /** U+2212, the minus sign that replaces every ASCII hyphen before synthesis. */
  const MINUS_SIGN: char := '\U{2212}'

  const SSML_OPEN: string := "<speak> <say-as interpret-as=\""
  const SSML_TAG_END: string := "\">"
  const SSML_CLOSE: string := "</say-as> </speak>"

  /** The SSML sent for `text` with the "say-as" hint `sayAs`. Its length, the
      billed count, is the length of the hint and of the text plus the 50
      characters of the template. */
  function Ssml(sayAs: string, text: string): (ssml: string)
    ensures |ssml| == |sayAs| + |text| + 50
    ensures ssml[..|SSML_OPEN| + |sayAs| + |SSML_TAG_END|] == SSML_OPEN + sayAs + SSML_TAG_END
    ensures ssml[|ssml| - |SSML_CLOSE|..] == SSML_CLOSE
  {
    SSML_OPEN + sayAs + SSML_TAG_END + Strings.ReplaceChar(text, '-', MINUS_SIGN) + SSML_CLOSE
  }

  /** The SSML carries the text between the tag end and the closing tags with no
      ASCII hyphen left in it. When the text held no minus sign, turning the minus
      signs back into hyphens gives back the text; a text that already held one
      cannot be told from the same text with a hyphen there. */
  lemma SsmlCarriesText(sayAs: string, text: string)
    ensures var ssml := Ssml(sayAs, text);
            var body := ssml[|SSML_OPEN| + |sayAs| + |SSML_TAG_END|..|ssml| - |SSML_CLOSE|];
            && '-' !in body
            && (MINUS_SIGN !in text ==> Strings.ReplaceChar(body, MINUS_SIGN, '-') == text)
  {
    var replaced := Strings.ReplaceChar(text, '-', MINUS_SIGN);
    var ssml := Ssml(sayAs, text);
    assert ssml[|SSML_OPEN| + |sayAs| + |SSML_TAG_END|..|ssml| - |SSML_CLOSE|] == replaced;
    assert forall i :: 0 <= i < |replaced| ==> replaced[i] != '-';
    if MINUS_SIGN !in text {
      Strings.ReplaceCharRoundTrip(text, '-', MINUS_SIGN);
    }
  }

  /** A minus sign already in the text is billed and spoken like a hyphen: the
      text with a hyphen in its place gives the same SSML. */
  lemma MinusSignLikeHyphen(sayAs: string, text: string, i: nat)
    requires i < |text| && text[i] == MINUS_SIGN
    ensures Ssml(sayAs, text) == Ssml(sayAs, text[i := '-'])
  {
    var a := Strings.ReplaceChar(text, '-', MINUS_SIGN);
    var b := Strings.ReplaceChar(text[i := '-'], '-', MINUS_SIGN);
    assert forall j :: 0 <= j < |a| ==> a[j] == b[j];
    assert a == b;
  }

  /** The handler's report of an exception whose `str(args)` is `args`: a
      message about a failed playback is reported by name, any other exception
      goes to the exception hook. */
  function Report(args: string): (e: HostEvent)
    ensures e == PythonError("FailedToPlaySound") <==> Strings.Contains(args, "Failed to play sound")
    ensures e != PythonError("FailedToPlaySound") ==> e == ExceptionHook
  {
    if Strings.Contains(args, "Failed to play sound") then PythonError("FailedToPlaySound") else ExceptionHook
  }

  /** `callExcelMacro("charactersBilled", str(count))`. */
  function Billing(count: nat): (e: HostEvent)
    ensures e.Macro? && e.name == "charactersBilled"
    ensures Strings.AllDigits(e.arg) && Strings.ParseDecimal(e.arg) == count
  {
    Strings.DecimalRoundTrip(count);
    Macro("charactersBilled", Strings.Decimal(count))
  }

  datatype SynthesisOutcome = Synthesized | SynthesisRaised(args: string)
  datatype PlaybackOutcome = Played | PlaybackRaised(args: string)

  /** The voice gender handed to the synthesis client: "neutral" selects the
      client's NEUTRAL constant, any other text is passed through. */
  datatype Gender = Neutral | Named(name: string)

  class TextToSpeech {
    const languageCode: string
    const voice: string
    const gender: Gender
    const sayAs: string
    /** `TextToSpeechClient()` returned; when it raised, `__client` stays unbound. */
    const clientCreated: bool
    /** `__queue`: the texts waiting, head first. */
    var queue: seq<string>
    /** `__text`: the text the synthesis thread works on. */
    var text: string
    var thread: Worker
    /** The calls into the host: macro calls and exception-hook calls. */
    var events: seq<HostEvent>
    /** Every text `speak` accepted, in call order. */
    ghost var accepted: seq<string>
    /** Every text a synthesis thread was started for, in start order. */
    ghost var taken: seq<string>
    ghost var finishedCount: nat

    /** The queue is bounded by one more than `MAX_QUEUE_SIZE`. Texts are taken
        in the order they were accepted. At most one synthesis runs, and every
        thread started except the running one has finished. The running or last
        thread works on the text taken last. */
    ghost predicate Valid()
      reads this
    {
      && |queue| <= MAX_QUEUE_SIZE + 1
      && accepted == taken + queue
      && |taken| == finishedCount + (if thread == Running then 1 else 0)
      && (thread == NoWorker <==> taken == [])
      && (taken != [] ==> text == taken[|taken| - 1])
    }

    /** `__init__`: an empty queue and no thread. When the synthesis client
        cannot be created (`clientCreated` false), the credentials error is
        reported to Excel. */
    constructor (languageCode: string, voice: string, genderName: string, sayAs: string, clientCreated: bool)
      ensures Valid()
      ensures this.languageCode == languageCode && this.voice == voice && this.sayAs == sayAs
      ensures this.clientCreated == clientCreated
      ensures gender == (if genderName == "neutral" then Neutral else Named(genderName))
      ensures queue == [] && text == "" && thread == NoWorker && accepted == []
      ensures events == (if clientCreated then [] else [PythonError("GoogleCredentialsError.")])
    {
      this.languageCode := languageCode;
      this.voice := voice;
      this.gender := if genderName == "neutral" then Neutral else Named(genderName);
      this.sayAs := sayAs;
      this.clientCreated := clientCreated;
      queue := [];
      text := "";
      thread := NoWorker;
      events := if clientCreated then [] else [PythonError("GoogleCredentialsError.")];
      accepted := [];
      taken := [];
      finishedCount := 0;
    }

    /** `speak`: the text goes to the tail of the queue when the queue holds at
        most `MAX_QUEUE_SIZE` texts, so the queue can reach eleven. Otherwise the
        queue is left alone and the overflow is reported. No thread is started
        here: the source names `runTextToSpeech` without calling it. */
    method Speak(t: string)
      requires Valid()
      modifies this`queue, this`events, this`accepted
      ensures Valid()
      ensures |old(queue)| <= MAX_QUEUE_SIZE ==>
                queue == old(queue) + [t] && accepted == old(accepted) + [t] && events == old(events)
      ensures |old(queue)| > MAX_QUEUE_SIZE ==>
                && queue == old(queue) && accepted == old(accepted)
                && events == old(events) + [PythonError("textToSpeechQueueOverflow")]
    {
      if |queue| <= MAX_QUEUE_SIZE {
        queue := queue + [t];
        accepted := accepted + [t];
      } else {
        events := events + [PythonError("textToSpeechQueueOverflow")];
      }
    }

    /** `runTextToSpeech`: when texts are waiting and no synthesis thread is
        alive (none was created, or the last one finished), it takes exactly the
        head text and starts one thread. Otherwise it changes nothing. */
    method RunTextToSpeech()
      requires Valid()
      modifies this`queue, this`text, this`thread, this`taken
      ensures Valid()
      ensures old(queue) != [] && old(thread) != Running ==>
                && text == old(queue)[0] && queue == old(queue)[1..] && thread == Running
                && taken == old(taken) + [text]
      ensures old(queue) == [] || old(thread) == Running ==>
                queue == old(queue) && text == old(text) && thread == old(thread) && taken == old(taken)
    {
      if queue != [] {
        if thread == NoWorker || thread == Finished {
          text := queue[0];
          queue := queue[1..];
          thread := Running;
          taken := taken + [text];
        }
      }
    }

    /** The synthesis thread, `__speakGoogle`. Empty text does nothing. Otherwise
        the SSML is sent for synthesis. Without a client, the lookup of the
        unbound `__client` raises `AttributeError`, which goes to the hook, and
        nothing is billed. If synthesis raises, the exception is reported and
        nothing is billed. If it returns, the billed count is reported first and
        the audio is played afterwards, and a playback exception is reported
        after the billing. */
    method CompleteSpeech(synthesis: SynthesisOutcome, playback: PlaybackOutcome)
      requires Valid() && thread == Running
      modifies this`events, this`thread, this`finishedCount
      ensures Valid() && thread == Finished
      ensures text == "" ==> events == old(events)
      ensures text != "" && !clientCreated ==> events == old(events) + [ExceptionHook]
      ensures text != "" && clientCreated && synthesis.SynthesisRaised? ==>
                events == old(events) + [Report(synthesis.args)]
      ensures text != "" && clientCreated && synthesis.Synthesized? ==>
                events == old(events) + [Billing(|Ssml(sayAs, text)|)] +
                          (if playback.Played? then [] else [Report(playback.args)])
    {
      if text != "" {
        var ssmlText := Ssml(sayAs, text);
        var charactersBilled := |ssmlText|;
        if !clientCreated {
          events := events + [ExceptionHook];
        } else {
          match synthesis {
            case SynthesisRaised(args) =>
              events := events + [Report(args)];
            case Synthesized =>
              events := events + [Billing(charactersBilled)];
              if playback.PlaybackRaised? {
                events := events + [Report(playback.args)];
              }
          }
        }
      }
      thread := Finished;
      finishedCount := finishedCount + 1;
    }
  }

  /** `n` overflow reports in a row. */
  function Overflows(n: nat): (es: seq<HostEvent>)
    ensures |es| == n
    ensures forall i :: 0 <= i < n ==> es[i] == PythonError("textToSpeechQueueOverflow")
  {
    seq(n, _ => PythonError("textToSpeechQueueOverflow"))
  }

  /** Eleven texts spoken in a row, with no poll in between, are all queued, and
      every text after them is dropped with one overflow report each. */
  method SpeakBurst(tts: TextToSpeech, texts: seq<string>)
    requires tts.Valid() && tts.queue == []
    modifies tts`queue, tts`events, tts`accepted
    ensures tts.Valid() && tts.thread == old(tts.thread) && tts.text == old(tts.text)
    ensures |texts| <= MAX_QUEUE_SIZE + 1 ==> tts.queue == texts && tts.events == old(tts.events)
    ensures |texts| > MAX_QUEUE_SIZE + 1 ==>
              && tts.queue == texts[..MAX_QUEUE_SIZE + 1]
              && tts.events == old(tts.events) + Overflows(|texts| - (MAX_QUEUE_SIZE + 1))
  {
    var i := 0;
    while i < |texts|
      invariant 0 <= i <= |texts| && tts.Valid()
      invariant tts.queue == texts[..if i <= MAX_QUEUE_SIZE + 1 then i else MAX_QUEUE_SIZE + 1]
      invariant tts.events == old(tts.events) + Overflows(if i <= MAX_QUEUE_SIZE + 1 then 0 else i - (MAX_QUEUE_SIZE + 1))
    {
      tts.Speak(texts[i]);
      i := i + 1;
    }
    assert texts[..|texts|] == texts;
  }
}
