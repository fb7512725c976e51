/**
  The speech request controller of the text-to-speech panel
  (src/components/TTS.jsx): the voice catalog and its default, the
  "Preparing" and "Speaking" flags, and the delayed hand-over of an
  utterance to the speech synthesizer. The synthesizer is the source of the
  utterance callbacks; a timer still waiting to fire is kept in `pending`,
  and what has been handed over is logged in `issued`.
*/
module Tts {
  import opened Wrappers
  import opened JsString

  datatype Voice = Voice(name: string, lang: string)

  /** What the timer hands to the synthesizer: the text as typed, the voice
      if one was found, and the slider settings (kept as opaque numbers). */
  datatype Utterance = Utterance(text: string, voice: Option<Voice>, rate: real, pitch: real)

  /** The index of the first voice called `name`, or `|voices|` when there
      is none. */
  function FirstNamed(voices: seq<Voice>, name: string): (r: nat)
    ensures r <= |voices|
    ensures r < |voices| ==> voices[r].name == name
    ensures forall j :: 0 <= j < r ==> voices[j].name != name
    decreases |voices|
  {
    if voices == [] then 0
    else if voices[0].name == name then 0
    else 1 + FirstNamed(voices[1..], name)
  }

  /** `voices.find(v => v.name === selectedVoice)`: the first catalog entry
      with the selected name; none exactly when nothing is selected or no
      entry has that name. */
  function FindVoice(voices: seq<Voice>, selected: Option<string>): (r: Option<Voice>)
    ensures r.None? <==>
      (selected.None? || forall j :: 0 <= j < |voices| ==> voices[j].name != selected.value)
    ensures r.Some? ==>
      exists i :: 0 <= i < |voices| && r.value == voices[i]
        && voices[i].name == selected.value
        && forall j :: 0 <= j < i ==> voices[j].name != selected.value
  {
    if selected.None? then None
    else
      var i := FirstNamed(voices, selected.value);
      if i < |voices| then Some(voices[i]) else None
  }

  /** `!selectedVoice`: no selection, or the empty name. */
  predicate Unset(selected: Option<string>) {
    selected == None || selected == Some("")
  }

  /** The state of the text-to-speech panel. */
  class TtsController {
    var text: string
    var voices: seq<Voice>
    var selected: Option<string>
    var rate: real
    var pitch: real
    var speaking: bool
    var loading: bool
    /** Dispatches scheduled by "Speak" whose delay has not yet run out, in
        the order they were scheduled (all share the same delay). */
    var pending: seq<Utterance>
    /** Utterances handed to the synthesizer, in order. */
    var issued: seq<Utterance>

    /** Nothing blank is ever scheduled or spoken, and the panel only shows
        "Speaking" once something has been handed over. */
    predicate Valid()
      reads this
    {
      && (forall i :: 0 <= i < |pending| ==> !Blank(pending[i].text))
      && (forall i :: 0 <= i < |issued| ==> !Blank(issued[i].text))
      && (speaking ==> issued != [])
    }

    constructor()
      ensures text == "" && voices == [] && selected == None
      ensures rate == 1.0 && pitch == 1.0
      ensures !speaking && !loading && pending == [] && issued == []
      ensures Valid()
    {
      text, voices, selected := "", [], None;
      rate, pitch := 1.0, 1.0;
      speaking, loading := false, false;
      pending, issued := [], [];
    }

    /** The text area's `onChange`. */
    method EditText(t: string)
      modifies this
      ensures text == t
      ensures voices == old(voices) && selected == old(selected) && rate == old(rate) && pitch == old(pitch)
      ensures speaking == old(speaking) && loading == old(loading)
      ensures pending == old(pending) && issued == old(issued)
      ensures old(Valid()) ==> Valid()
    {
      text := t;
    }

    /** The voice picker's `onChange`. */
    method SelectVoice(name: string)
      modifies this
      ensures selected == Some(name)
      ensures text == old(text) && voices == old(voices) && rate == old(rate) && pitch == old(pitch)
      ensures speaking == old(speaking) && loading == old(loading)
      ensures pending == old(pending) && issued == old(issued)
      ensures old(Valid()) ==> Valid()
    {
      selected := Some(name);
    }

    /** The speed slider's `onChange`. */
    method SetRate(newRate: real)
      modifies this
      ensures rate == newRate
      ensures text == old(text) && voices == old(voices) && selected == old(selected) && pitch == old(pitch)
      ensures speaking == old(speaking) && loading == old(loading)
      ensures pending == old(pending) && issued == old(issued)
      ensures old(Valid()) ==> Valid()
    {
      rate := newRate;
    }

    /** The pitch slider's `onChange`. */
    method SetPitch(newPitch: real)
      modifies this
      ensures pitch == newPitch
      ensures text == old(text) && voices == old(voices) && selected == old(selected) && rate == old(rate)
      ensures speaking == old(speaking) && loading == old(loading)
      ensures pending == old(pending) && issued == old(issued)
      ensures old(Valid()) ==> Valid()
    {
      pitch := newPitch;
    }

    /** `loadVoices`: the catalog is replaced. With a catalog and no
        selection, the default becomes the voice at index 10; the result
        says whether that access fails for want of an eleventh voice, in
        which case the selection stays unset. */
    method LoadVoices(available: seq<Voice>) returns (thrown: bool)
      modifies this
      ensures voices == available
      ensures thrown <==> |available| > 0 && Unset(old(selected)) && |available| <= 10
      ensures |available| > 10 && Unset(old(selected)) ==> selected == Some(available[10].name)
      ensures !(|available| > 10 && Unset(old(selected))) ==> selected == old(selected)
      ensures text == old(text) && rate == old(rate) && pitch == old(pitch)
      ensures speaking == old(speaking) && loading == old(loading)
      ensures pending == old(pending) && issued == old(issued)
      ensures old(Valid()) ==> Valid()
    {
      voices := available;
      thrown := false;
      if |available| > 0 && Unset(selected) {
        if |available| > 10 {
          selected := Some(available[10].name);
        } else {
          thrown := true;
        }
      }
    }

    /** `handleSpeak`: blank text is turned away with nothing changed;
        otherwise the panel shows "Preparing" and one dispatch is scheduled,
        carrying the untrimmed text, the voice found for the selection and
        the current settings. The flags are not consulted. */
    method HandleSpeak() returns (accepted: bool)
      modifies this
      ensures accepted <==> !Blank(text)
      ensures accepted ==>
        loading && pending == old(pending) + [Utterance(text, FindVoice(voices, selected), rate, pitch)]
      ensures !accepted ==> loading == old(loading) && pending == old(pending)
      ensures text == old(text) && voices == old(voices) && selected == old(selected)
      ensures rate == old(rate) && pitch == old(pitch)
      ensures speaking == old(speaking) && issued == old(issued)
      ensures old(Valid()) ==> Valid()
    {
      if Trim(text) == [] {
        accepted := false;
        return;
      }
      accepted := true;
      loading := true;
      pending := pending + [Utterance(text, FindVoice(voices, selected), rate, pitch)];
    }

    /** A click on "Speak": the button is disabled while preparing or
        speaking, so such a click does nothing. */
    method ClickSpeak() returns (accepted: bool)
      modifies this
      ensures old(loading) || old(speaking) ==> !accepted && loading == old(loading) && pending == old(pending)
      ensures !old(loading) && !old(speaking) ==> (accepted <==> !Blank(text))
      ensures accepted ==>
        loading && pending == old(pending) + [Utterance(text, FindVoice(voices, selected), rate, pitch)]
      ensures !accepted ==> loading == old(loading) && pending == old(pending)
      ensures text == old(text) && voices == old(voices) && selected == old(selected)
      ensures rate == old(rate) && pitch == old(pitch)
      ensures speaking == old(speaking) && issued == old(issued)
      ensures old(Valid()) ==> Valid()
    {
      if loading || speaking {
        accepted := false;
      } else {
        accepted := HandleSpeak();
      }
    }

    /** The 300 ms timer of the oldest scheduled dispatch runs out: its
        utterance is handed to the synthesizer. */
    method FireTimer()
      requires pending != []
      modifies this
      ensures issued == old(issued) + [old(pending)[0]]
      ensures pending == old(pending)[1..]
      ensures text == old(text) && voices == old(voices) && selected == old(selected)
      ensures rate == old(rate) && pitch == old(pitch)
      ensures speaking == old(speaking) && loading == old(loading)
      ensures old(Valid()) ==> Valid()
    {
      issued := issued + [pending[0]];
      pending := pending[1..];
    }

    /** An issued utterance's `onstart`: "Speaking" replaces "Preparing". */
    method OnUtteranceStart()
      requires issued != []
      modifies this
      ensures speaking && !loading
      ensures text == old(text) && voices == old(voices) && selected == old(selected)
      ensures rate == old(rate) && pitch == old(pitch)
      ensures pending == old(pending) && issued == old(issued)
      ensures old(Valid()) ==> Valid()
    {
      speaking := true;
      loading := false;
    }

    /** An issued utterance's `onend`: speaking stops; "Preparing" is left
        as it is. */
    method OnUtteranceEnd()
      modifies this
      ensures !speaking && loading == old(loading)
      ensures text == old(text) && voices == old(voices) && selected == old(selected)
      ensures rate == old(rate) && pitch == old(pitch)
      ensures pending == old(pending) && issued == old(issued)
      ensures old(Valid()) ==> Valid()
    {
      speaking := false;
    }

    /** `handleStop`: both flags drop, from any state. The synthesizer's
        queue is cancelled, but a dispatch still waiting for its timer is
        not: `pending` is untouched. */
    method HandleStop()
      modifies this
      ensures !speaking && !loading
      ensures pending == old(pending) && issued == old(issued)
      ensures text == old(text) && voices == old(voices) && selected == old(selected)
      ensures rate == old(rate) && pitch == old(pitch)
      ensures old(Valid()) ==> Valid()
    {
      speaking := false;
      loading := false;
    }
  }

  /** Stop does not cancel a dispatch that is still waiting: "Speak" then
      "Stop" before the timer runs out still hands the text to the
      synthesizer afterwards, with the panel showing neither flag. */
  method StopBeforeTimer() returns (loadingAfterStop: bool, spoken: seq<Utterance>)
    ensures !loadingAfterStop
    ensures spoken == [Utterance("hi", None, 1.0, 1.0)]
  {
    var c := new TtsController();
    c.EditText("hi");
    assert !Blank(c.text) by {
      assert c.text[0] == 'h' && !IsSpace('h');
    }
    var accepted := c.HandleSpeak();
    c.HandleStop();
    loadingAfterStop := c.loading;
    c.FireTimer();
    spoken := c.issued;
  }

  /** `handleSpeak` has no guard of its own: called twice it schedules two
      dispatches, where a second click on the disabled button schedules
      none. */
  method OnlyTheButtonGuards() returns (scheduledByHandler: nat, scheduledByClicks: nat)
    ensures scheduledByHandler == 2
    ensures scheduledByClicks == 1
  {
    var c := new TtsController();
    c.EditText("hi");
    assert !Blank(c.text) by {
      assert c.text[0] == 'h' && !IsSpace('h');
    }
    var a1 := c.HandleSpeak();
    var a2 := c.HandleSpeak();
    scheduledByHandler := |c.pending|;

    var d := new TtsController();
    d.EditText("hi");
    assert !Blank(d.text) by {
      assert d.text[0] == 'h' && !IsSpace('h');
    }
    var b1 := d.ClickSpeak();
    var b2 := d.ClickSpeak();
    scheduledByClicks := |d.pending|;
  }
}
