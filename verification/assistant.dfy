/** The dashboard's voice assistant: a module-wide `isListening` guard that
    admits one recognition session at a time, and the reaction to each
    recognised utterance (a wake acknowledgement or one summarize request),
    to a recognition error and to the stop button.

    The browser's speech recognition and synthesis and the summarize request
    are not run here: what the assistant asks of them is returned as a list
    of effects, and what they deliver (a transcript, the summarize reply)
    comes in as a parameter. */
module Assistant {
  import opened Wrappers
  import opened Dashboard

  const WakePhrase := "hello gemini"
  const Prompt := "Say 'Hello Gemini' to begin..."
  const Processing := "Processing..."
  const Acknowledgement := "Hello sir, how can I assist you?"
  const Fallback := "There was an error processing your request."

  predicate IsUpper(c: char) {
    'A' <= c <= 'Z'
  }

  function LowerChar(c: char): char {
    if IsUpper(c) then (c as int + 32) as char else c
  }

  /** `toLowerCase` on the ASCII letters. */
  function ToLower(s: string): (r: string)
    ensures |r| == |s|
    ensures forall i :: 0 <= i < |r| ==> !IsUpper(r[i])
    ensures forall i :: 0 <= i < |s| && !IsUpper(s[i]) ==> r[i] == s[i]
    ensures forall i :: 0 <= i < |s| && IsUpper(s[i]) ==> r[i] as int == s[i] as int + 32
  {
    seq(|s|, i requires 0 <= i < |s| => LowerChar(s[i]))
  }

  /** `pat` occurs in `s` starting at index `i`. */
  predicate OccursAt(s: string, pat: string, i: int) {
    0 <= i && i + |pat| <= |s| && s[i..i + |pat|] == pat
  }

  /** String `includes`: substring search, not equality. */
  function Includes(s: string, pat: string): (b: bool)
    ensures b <==> exists i :: OccursAt(s, pat, i)
    decreases |s|
  {
    if |pat| > |s| then false
    else if s[..|pat|] == pat then
      assert OccursAt(s, pat, 0);
      true
    else
      var b := Includes(s[1..], pat);
      assert forall i :: OccursAt(s[1..], pat, i) ==> OccursAt(s, pat, i + 1) by {
        forall i | OccursAt(s[1..], pat, i)
          ensures OccursAt(s, pat, i + 1)
        {
          assert s[1..][i..i + |pat|] == s[i + 1..i + 1 + |pat|];
        }
      }
      assert forall i :: OccursAt(s, pat, i) ==> i > 0 && OccursAt(s[1..], pat, i - 1) by {
        forall i | OccursAt(s, pat, i)
          ensures i > 0 && OccursAt(s[1..], pat, i - 1)
        {
          assert i != 0;
          assert s[1..][i - 1..i - 1 + |pat|] == s[i..i + |pat|];
        }
      }
      b
  }

  /** The transcript, lower-cased, contains the wake phrase. */
  predicate IsWake(transcript: string) {
    Includes(ToLower(transcript), WakePhrase)
  }

  /** What the assistant asks of the browser and the backend. */
  datatype Effect =
    | StartRecognition
    | AbortRecognition
    | CancelSpeech
    | Speak(text: string)
    | Summarize(query: string, snapshot: DashboardState)

  /** `listening` is the module-level `isListening` flag, `hasSession`
      whether a recognition instance was ever created, `sessions` how many
      were, and `summary` the text on screen. */
  datatype Assistant = Assistant(listening: bool, hasSession: bool, sessions: nat, summary: string)

  /** A fresh page: no flag, no recognition instance, the prompt on screen. */
  const Idle := Assistant(false, false, 0, Prompt)

  /** The state after a transition and the effects it requested, in order. */
  datatype Step = Step(state: Assistant, effects: seq<Effect>)

  function StartCount(fx: seq<Effect>): nat {
    if |fx| == 0 then 0 else (if fx[0].StartRecognition? then 1 else 0) + StartCount(fx[1..])
  }

  function SummarizeCount(fx: seq<Effect>): nat {
    if |fx| == 0 then 0 else (if fx[0].Summarize? then 1 else 0) + SummarizeCount(fx[1..])
  }

  /** The microphone button. `available` tells whether the browser offers a
      speech recognition constructor at all. The flag is set before the
      constructor is called, so where there is none the click throws with the
      flag already set and no recognition instance stored. */
  function Start(a: Assistant, available: bool): (r: Step)
    ensures r.state.listening
    ensures r.state.summary == a.summary
    ensures a.listening ==> r.state == a && |r.effects| == 0
    ensures !a.listening && available ==>
      && r.state.hasSession
      && r.state.sessions == a.sessions + 1
      && r.effects == [StartRecognition]
    ensures !a.listening && !available ==> r.state == a.(listening := true) && |r.effects| == 0
  {
    if a.listening then Step(a, [])
    else if !available then Step(a.(listening := true), [])
    else Step(a.(listening := true, hasSession := true, sessions := a.sessions + 1), [StartRecognition])
  }

  /** The stop button: abort the session if one was ever created, cancel
      speech, clear the flag. */
  function Stop(a: Assistant): (r: Step)
    ensures !r.state.listening
    ensures r.state == a.(listening := false)
    ensures StartCount(r.effects) == 0 && SummarizeCount(r.effects) == 0
    ensures CancelSpeech in r.effects
    ensures AbortRecognition in r.effects <==> a.hasSession
  {
    var fx := (if a.hasSession then [AbortRecognition] else []) + [CancelSpeech];
    var last := [CancelSpeech];
    assert last[1..] == [];
    assert StartCount(last) == 0 && SummarizeCount(last) == 0;
    assert a.hasSession ==> fx[1..] == last;
    Step(a.(listening := false), fx)
  }

  /** A recognition error restarts recognition and changes nothing else. */
  function OnError(a: Assistant): (r: Step)
    ensures r.state == a
    ensures StartCount(r.effects) == 1 && SummarizeCount(r.effects) == 0
  {
    Step(a, [StartRecognition])
  }

  /** A recognised utterance. A wake phrase is acknowledged and recognition
      restarted; anything else becomes one summarize request carrying the
      lower-cased transcript and the dashboard snapshot, whose reply is
      shown and spoken before recognition restarts. When that request fails
      the fallback text is shown and spoken and recognition is NOT
      restarted. */
  function OnResult(a: Assistant, transcript: string, snapshot: DashboardState, reply: Result<string>): (r: Step)
    ensures r.state.listening == a.listening
    ensures r.state.hasSession == a.hasSession && r.state.sessions == a.sessions
    ensures IsWake(transcript) ==>
      && SummarizeCount(r.effects) == 0
      && r.effects == [Speak(Acknowledgement), StartRecognition]
      && r.state.summary == Processing
    ensures !IsWake(transcript) ==>
      && SummarizeCount(r.effects) == 1
      && r.effects[0] == Summarize(ToLower(transcript), snapshot)
    ensures !IsWake(transcript) && reply.Ok? ==>
      && r.state.summary == reply.value
      && r.effects[1..] == [Speak(reply.value), StartRecognition]
    ensures !IsWake(transcript) && reply.Err? ==>
      && r.state.summary == Fallback
      && StartCount(r.effects) == 0
      && r.effects[1..] == [Speak(Fallback)]
  {
    var heard := ToLower(transcript);
    if Includes(heard, WakePhrase) then
      var fx := [Speak(Acknowledgement), StartRecognition];
      assert fx[1..] == [StartRecognition] && fx[1..][1..] == [];
      assert SummarizeCount(fx[1..]) == SummarizeCount(fx[1..][1..]) == 0;
      Step(a.(summary := Processing), fx)
    else
      var request := Summarize(heard, snapshot);
      match reply
      case Ok(output) =>
        var fx := [request, Speak(output), StartRecognition];
        assert fx[1..] == [Speak(output), StartRecognition];
        assert fx[1..][1..] == [StartRecognition] && fx[1..][1..][1..] == [];
        assert SummarizeCount(fx[1..][1..]) == SummarizeCount(fx[1..][1..][1..]) == 0;
        assert SummarizeCount(fx[1..]) == 0;
        Step(a.(summary := output), fx)
      case Err =>
        var fx := [request, Speak(Fallback)];
        assert fx[1..] == [Speak(Fallback)] && fx[1..][1..] == [];
        assert StartCount(fx[1..]) == StartCount(fx[1..][1..]) == 0;
        Step(a.(summary := Fallback), fx)
  }

  /** Everything that can happen to the assistant. `Remounted` is the
      dashboard page being left and entered again: the page's own state
      starts over while the module-level flag and instance survive. */
  datatype Event =
    | MicClicked(available: bool)
    | StopClicked
    | Heard(transcript: string, reply: Result<string>)
    | RecognitionFailed
    | Remounted

  /** The page is mounted afresh: only the on-screen summary returns to the
      prompt. */
  function Remount(a: Assistant): (r: Step)
    ensures r.state.summary == Prompt
    ensures r.state.listening == a.listening && r.state.hasSession == a.hasSession
    ensures r.state.sessions == a.sessions
    ensures |r.effects| == 0
  {
    Step(a.(summary := Prompt), [])
  }

  function Dispatch(a: Assistant, e: Event, snapshot: DashboardState): Step {
    match e
    case MicClicked(available) => Start(a, available)
    case StopClicked => Stop(a)
    case Heard(t, reply) => OnResult(a, t, snapshot, reply)
    case RecognitionFailed => OnError(a)
    case Remounted => Remount(a)
  }

  function StopCount(events: seq<Event>): nat {
    if |events| == 0 then 0 else (if events[0].StopClicked? then 1 else 0) + StopCount(events[1..])
  }

  /** The state after a sequence of events and every effect requested on
      the way. Sessions are only ever added. */
  function Run(a: Assistant, events: seq<Event>, snapshot: DashboardState): (r: Step)
    ensures r.state.sessions >= a.sessions
    ensures a.hasSession ==> r.state.hasSession
    decreases |events|
  {
    if |events| == 0 then Step(a, [])
    else
      var first := Dispatch(a, events[0], snapshot);
      var rest := Run(first.state, events[1..], snapshot);
      Step(rest.state, first.effects + rest.effects)
  }

  /** Sessions plus one for an idle flag: what only a stop can raise. */
  function Potential(a: Assistant): nat {
    a.sessions + (if a.listening then 0 else 1)
  }

  /** The guard admits one session at a time: over any sequence of events,
      every new session beyond the first needs a stop before it. In
      particular, without a stop at most one session is ever created. */
  lemma {:induction false} SessionsBoundedByStops(a: Assistant, events: seq<Event>, snapshot: DashboardState)
    ensures Potential(Run(a, events, snapshot).state) <= Potential(a) + StopCount(events)
    ensures Run(a, events, snapshot).state.sessions <= a.sessions + 1 + StopCount(events)
    decreases |events|
  {
    if |events| > 0 {
      var first := Dispatch(a, events[0], snapshot);
      SessionsBoundedByStops(first.state, events[1..], snapshot);
      assert Potential(first.state) <= Potential(a) + (if events[0].StopClicked? then 1 else 0);
    }
  }

  /** From a fresh page, sessions created never exceed one plus the number
      of stops. */
  lemma SessionsFromIdle(events: seq<Event>, snapshot: DashboardState)
    ensures Run(Idle, events, snapshot).state.sessions <= 1 + StopCount(events)
  {
    SessionsBoundedByStops(Idle, events, snapshot);
  }

  /** A second click while listening is ignored, whatever the first did. */
  lemma SecondStartIgnored(a: Assistant, first: bool, second: bool)
    ensures Start(Start(a, first).state, second) == Step(Start(a, first).state, [])
  {
  }

  /** After a stop the next click in a supporting browser is always accepted
      and starts exactly one recognition session. */
  lemma StopThenStartAccepted(a: Assistant)
    ensures Start(Stop(a).state, true).effects == [StartRecognition]
    ensures Start(Stop(a).state, true).state.sessions == a.sessions + 1
  {
  }

  /** Without a recognition constructor the first click leaves the flag set
      and no instance: later clicks do nothing, and a stop aborts nothing and
      only cancels speech. */
  lemma NoRecognizerLocksButton(available: bool)
    ensures var s := Start(Idle, false).state;
      && s.listening && !s.hasSession && s.sessions == 0
      && Start(s, available) == Step(s, [])
      && Stop(s).effects == [CancelSpeech]
  {
  }

  /** Leaving the page while listening and coming back shows the prompt
      again, yet the flag survives: the button does nothing until stop. */
  lemma RemountKeepsFlag(a: Assistant, available: bool)
    requires a.listening
    ensures var s := Remount(a).state;
      && s.summary == Prompt
      && s.listening
      && Start(s, available) == Step(s, [])
      && Start(Stop(s).state, true).effects == [StartRecognition]
  {
  }

  /** After a failed summarize request the flag stays set and recognition is
      not restarted, so the microphone button does nothing until the stop
      button is pressed. */
  lemma FailedSummaryNeedsStop(a: Assistant, transcript: string, snapshot: DashboardState)
    requires a.listening
    requires !IsWake(transcript)
    ensures var s := OnResult(a, transcript, snapshot, Err);
      && StartCount(s.effects) == 0
      && s.state.listening
      && Start(s.state, true).effects == []
      && Start(Stop(s.state).state, true).effects == [StartRecognition]
  {
  }

  /** A wake utterance never consults the summarize reply. */
  lemma WakeIgnoresReply(a: Assistant, transcript: string, snapshot: DashboardState, r1: Result<string>, r2: Result<string>)
    requires IsWake(transcript)
    ensures OnResult(a, transcript, snapshot, r1) == OnResult(a, transcript, snapshot, r2)
  {
  }

  /** Lower-casing works character by character, so it distributes over
      concatenation. */
  lemma ToLowerAppend(a: string, b: string)
    ensures ToLower(a + b) == ToLower(a) + ToLower(b)
  {
  }

  /** The wake phrase is matched in any letter case and anywhere in the
      utterance. */
  lemma WakeAnywhere(before: string, phrase: string, after: string)
    requires ToLower(phrase) == WakePhrase
    ensures IsWake(before + phrase + after)
  {
    ToLowerAppend(before + phrase, after);
    ToLowerAppend(before, phrase);
    var heard := ToLower(before + phrase + after);
    assert heard == ToLower(before) + WakePhrase + ToLower(after);
    assert heard[|before|..|before| + |WakePhrase|] == WakePhrase;
    assert OccursAt(heard, WakePhrase, |before|);
  }

  /** Capitalised as people write it, the phrase wakes the assistant. */
  lemma CapitalisedPhraseWakes(before: string, after: string)
    ensures IsWake(before + "Hello Gemini" + after)
  {
    var phrase := "Hello Gemini";
    forall i | 0 <= i < |phrase|
      ensures LowerChar(phrase[i]) == WakePhrase[i]
    {
    }
    assert ToLower(phrase) == WakePhrase;
    WakeAnywhere(before, phrase, after);
  }
}
