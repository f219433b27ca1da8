/** The chat assistant's message box
    (src/pages/ai-chat-assistant/components/ChatInput.jsx): typing, sending
    with the button or Enter, the simulated voice recording with its timer,
    the enabled state of the controls and the character counter. */
module ChatInput {
  import opened Wrappers
  import opened Strings
  import ProgressIndicator

  /** The component's state: the draft, whether a recording runs, and its
      elapsed seconds. */
  datatype InputState = InputState(message: string, recording: bool, recordingTime: nat)

  const INITIAL: InputState := InputState("", false, 0)

  /** The question the simulated recording types in when it ends. */
  const VOICE_SAMPLE: string := "What are the best engineering colleges in Kashmir?"

  /** What the user or the timers can do. `Tick` is the one-second interval
      and `VoiceDone` the three-second timeout of a recording. */
  datatype Event =
    | Type(text: string)
    | KeyPress(key: string, shift: bool)
    | ClickSend
    | StartRecording
    | StopRecording
    | Tick
    | VoiceDone

  /** The outcome of an event: the new state and the message handed to
      `onSendMessage`, if any. */
  datatype Outcome = Outcome(state: InputState, sent: Option<string>)

  /** `handleSendMessage`: a blank draft, or a disabled box, sends nothing;
      otherwise the trimmed draft is sent and the box is cleared. */
  function Send(s: InputState, disabled: bool): (o: Outcome)
    ensures o.sent.Some? <==> !IsBlank(s.message) && !disabled
    ensures o.sent.Some? ==> o.sent.value == Trim(s.message) && o.sent.value != "" && o.state == s.(message := "")
    ensures o.sent.None? ==> o.state == s
  {
    if IsBlank(s.message) || disabled then Outcome(s, None)
    else Outcome(s.(message := ""), Some(Trim(s.message)))
  }

  /** `stopRecording`: no recording and the timer back at zero. */
  function Stop(s: InputState): (r: InputState)
    ensures !r.recording && r.recordingTime == 0 && r.message == s.message
  {
    s.(recording := false, recordingTime := 0)
  }

  /** One event. `handleKeyPress` sends on Enter without Shift; the recording
      button starts a recording from zero and stops a running one; the timer
      counts seconds only while a recording runs; when the simulated
      recording ends it stops and puts the sample question in the box. */
  function Step(s: InputState, e: Event, disabled: bool): (o: Outcome)
    ensures e.ClickSend? || (e.KeyPress? && e.key == "Enter" && !e.shift) ==> o == Send(s, disabled)
    ensures !(e.ClickSend? || (e.KeyPress? && e.key == "Enter" && !e.shift)) ==> o.sent.None?
    ensures e.StartRecording? ==> o.state.recording && o.state.recordingTime == 0
    ensures e.StopRecording? || e.VoiceDone? ==> !o.state.recording && o.state.recordingTime == 0
    ensures e.VoiceDone? ==> o.state.message == VOICE_SAMPLE
    ensures e.Tick? ==> o.state.recordingTime == (if s.recording then s.recordingTime + 1 else s.recordingTime)
  {
    match e
    case Type(text) => Outcome(s.(message := text), None)
    case KeyPress(key, shift) => if key == "Enter" && !shift then Send(s, disabled) else Outcome(s, None)
    case ClickSend => Send(s, disabled)
    case StartRecording => Outcome(s.(recording := true, recordingTime := 0), None)
    case StopRecording => Outcome(Stop(s), None)
    case Tick => Outcome(if s.recording then s.(recordingTime := s.recordingTime + 1) else s, None)
    case VoiceDone => Outcome(Stop(s).(message := VOICE_SAMPLE), None)
  }

  /** Runs a sequence of events, collecting what was sent. */
  function Run(s: InputState, events: seq<Event>, disabled: bool): (r: (InputState, seq<string>))
    decreases |events|
  {
    if |events| == 0 then (s, [])
    else
      var o := Step(s, events[0], disabled);
      var rest := Run(o.state, events[1..], disabled);
      (rest.0, (if o.sent.Some? then [o.sent.value] else []) + rest.1)
  }

  /** A message as `onSendMessage` receives it: non-empty and already trimmed. */
  predicate IsCleanMessage(m: string)
  {
    m != "" && Trim(m) == m
  }

  /** A disabled box never sends, whatever happens; and everything an
      enabled box sends is trimmed and non-empty. */
  lemma {:induction false} RunSends(s: InputState, events: seq<Event>, disabled: bool)
    ensures disabled ==> Run(s, events, disabled).1 == []
    ensures forall m :: m in Run(s, events, disabled).1 ==> IsCleanMessage(m)
    decreases |events|
  {
    if |events| > 0 {
      var o := Step(s, events[0], disabled);
      var rest := Run(o.state, events[1..], disabled);
      RunSends(o.state, events[1..], disabled);
      if o.sent.Some? {
        TrimIdempotent(s.message);
        assert IsCleanMessage(o.sent.value);
        assert Run(s, events, disabled).1 == [o.sent.value] + rest.1;
      } else {
        assert Run(s, events, disabled).1 == rest.1;
      }
    }
  }

  /** Shift+Enter inserts nothing and sends nothing. */
  lemma ShiftEnterNeverSends(s: InputState, disabled: bool)
    ensures Step(s, KeyPress("Enter", true), disabled) == Outcome(s, None)
  {
  }

  /** Starting a recording and letting `n` seconds pass shows `n` seconds. */
  lemma {:induction false} TicksCountSeconds(s: InputState, n: nat)
    requires s.recording
    ensures var ticks := seq(n, i => Tick);
            Run(s, ticks, false).0 == s.(recordingTime := s.recordingTime + n)
            && Run(s, ticks, false).1 == []
    decreases n
  {
    if n > 0 {
      var ticks := seq(n, i => Tick);
      assert ticks[1..] == seq(n - 1, i => Tick);
      TicksCountSeconds(s.(recordingTime := s.recordingTime + 1), n - 1);
    }
  }

  /** The text box is locked while disabled or recording. */
  predicate InputLocked(s: InputState, disabled: bool)
  {
    disabled || s.recording
  }

  /** The send button is off while disabled, while the draft is blank, and
      while recording. */
  predicate SendButtonOff(s: InputState, disabled: bool)
  {
    disabled || IsBlank(s.message) || s.recording
  }

  /** Whenever the send button is on, clicking it sends the trimmed draft;
      the handler alone does not look at the recording flag. */
  lemma SendButtonSends(s: InputState, disabled: bool)
    ensures !SendButtonOff(s, disabled) ==> Step(s, ClickSend, disabled).sent == Some(Trim(s.message))
    ensures s.recording && !disabled && !IsBlank(s.message) ==> Step(s, ClickSend, disabled).sent.Some?
  {
  }

  /** `formatRecordingTime`: minutes, a colon and the seconds padded to two
      digits. */
  function FormatRecordingTime(seconds: nat): (s: string)
    ensures Split(s, ':') == [NatToString(seconds / 60), Pad2(seconds % 60)]
  {
    NoSeparatorInNumber(seconds / 60, ':');
    NoSeparatorInNumber(seconds % 60, ':');
    assert ':' !in Pad2(seconds % 60);
    SplitAppend(NatToString(seconds / 60), Pad2(seconds % 60), ':');
    SplitNoSep(Pad2(seconds % 60), ':');
    NatToString(seconds / 60) + [':'] + Pad2(seconds % 60)
  }

  /** The display reads back as the elapsed time: minutes times sixty plus
      seconds, the seconds always two digits. */
  lemma FormatRecordingTimeReadsBack(seconds: nat)
    ensures var parts := Split(FormatRecordingTime(seconds), ':');
            |parts| == 2 && |parts[1]| == 2
            && ParseNat(parts[0]).Some? && ParseNat(parts[1]).Some?
            && ParseNat(parts[0]).value * 60 + ParseNat(parts[1]).value == seconds
  {
    ParseNatToString(seconds / 60);
    ParsePad2(seconds % 60);
  }

  /** The counter `${message.length}/500`. */
  const COUNTER_LIMIT: int := 500

  function Counter(s: InputState): (c: string)
    ensures Split(c, '/') == [IntToString(|s.message|), IntToString(COUNTER_LIMIT)]
  {
    ProgressIndicator.FractionLabel(|s.message|, COUNTER_LIMIT)
  }

  /** The 500 is only shown, not enforced: a longer draft is kept whole. */
  lemma LimitNotEnforced(s: InputState, text: string)
    requires |text| > COUNTER_LIMIT
    ensures Step(s, Type(text), false).state.message == text
  {
  }
}
