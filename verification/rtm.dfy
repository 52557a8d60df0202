/** The `waitForText` task: waiting on the real-time connection for a message
    with a given text. */
module Rtm {
  import opened Js
  import opened Config

  /** A decoded event; `kind` is its JSON `type` field. */
  datatype Event = Event(kind: Value, text: Value)

  /** A frame received on the socket, `at` milliseconds after the timer was
      set; binary frames are never decoded. */
  datatype Frame = Frame(at: nat, binary: bool, event: Event)

  /** The frame the task waits for: a text frame of type 'message' whose text
      is exactly the target. */
  predicate Matches(f: Frame, target: Value) {
    !f.binary && f.event.kind == Str("message") && f.event.text == target
  }

  /** The frame arrived before the timer fired. A frame arriving at the very
      millisecond of the timer is taken to lose the race. */
  predicate BeforeTimer(f: Frame, delay: nat) {
    f.at < delay
  }

  /** The timer's delay in milliseconds: `options.timeout || DEFAULT_TIMEOUT`,
      where `coerced` is the number `setTimeout` makes of the `--timeout` text
      (used as given, with no conversion from seconds). */
  function EffectiveTimeout(o: Options, coerced: nat): (ms: nat)
    ensures Truthy(o.timeout) ==> ms == coerced
    ensures !Truthy(o.timeout) ==> ms == DefaultTimeout
  {
    if Truthy(o.timeout) then coerced else DefaultTimeout
  }

  /** Position of the first frame that matches and beats the timer, or
      `|frames|` when there is none. */
  function FirstMatch(frames: seq<Frame>, target: Value, delay: nat): (i: nat)
    ensures i <= |frames|
    ensures i < |frames| ==> Matches(frames[i], target) && BeforeTimer(frames[i], delay)
    ensures forall j :: 0 <= j < i ==> !(Matches(frames[j], target) && BeforeTimer(frames[j], delay))
  {
    if |frames| == 0 then 0
    else if Matches(frames[0], target) && BeforeTimer(frames[0], delay) then 0
    else 1 + FirstMatch(frames[1..], target, delay)
  }

  /** How the task ends. `NoCallback`: the task returns without calling back. */
  datatype Outcome = NoCallback | Resolved(event: Event) | Failed(error: string)

  /** The task, given the `url` field of the decoded `rtm.start` reply, the
      frames the socket receives in arrival order, and the coerced
      `--timeout`. The first matching frame that arrives before the timer
      resolves the task; otherwise the timer fails it. */
  function WaitForText(o: Options, rtmUrl: Value, frames: seq<Frame>, coerced: nat): (r: Outcome)
    ensures r == NoCallback <==> !Truthy(o.waitForText)
    ensures Truthy(o.waitForText) && !Truthy(rtmUrl) ==> r == Failed("wss not found")
    ensures r.Resolved? <==>
              && Truthy(o.waitForText) && Truthy(rtmUrl)
              && exists i :: && 0 <= i < |frames| && Matches(frames[i], o.waitForText)
                             && BeforeTimer(frames[i], EffectiveTimeout(o, coerced))
    ensures r.Resolved? ==>
              exists i :: && 0 <= i < |frames| && Matches(frames[i], o.waitForText)
                          && BeforeTimer(frames[i], EffectiveTimeout(o, coerced))
                          && r.event == frames[i].event
                          && forall j :: 0 <= j < i ==>
                               !(Matches(frames[j], o.waitForText) && BeforeTimer(frames[j], EffectiveTimeout(o, coerced)))
    ensures Truthy(o.waitForText) && Truthy(rtmUrl) && !r.Resolved? ==> r == Failed("timeout")
  {
    if !Truthy(o.waitForText) then NoCallback
    else if !Truthy(rtmUrl) then Failed("wss not found")
    else
      var delay := EffectiveTimeout(o, coerced);
      var i := FirstMatch(frames, o.waitForText, delay);
      if i < |frames| then Resolved(frames[i].event) else Failed("timeout")
  }

  /** Without `--timeout` the wait lasts 30000 ms: a matching frame 29999 ms
      after the timer was set resolves the task, one at 30000 ms is too late. */
  lemma DefaultTimeoutBoundary(o: Options, rtmUrl: Value, coerced: nat, e: Event)
    requires Truthy(o.waitForText) && Truthy(rtmUrl) && !Truthy(o.timeout)
    requires e == Event(Str("message"), o.waitForText)
    ensures WaitForText(o, rtmUrl, [Frame(29999, false, e)], coerced) == Resolved(e)
    ensures WaitForText(o, rtmUrl, [Frame(30000, false, e)], coerced) == Failed("timeout")
  {
    assert Matches(Frame(29999, false, e), o.waitForText);
  }

  /** With `--timeout`, its coerced value alone sets the deadline: a lone
      matching frame resolves the task exactly when it arrives before it. */
  lemma TimeoutOptionSetsDeadline(o: Options, rtmUrl: Value, coerced: nat, f: Frame)
    requires Truthy(o.waitForText) && Truthy(rtmUrl) && Truthy(o.timeout)
    requires Matches(f, o.waitForText)
    ensures WaitForText(o, rtmUrl, [f], coerced) == (if f.at < coerced then Resolved(f.event) else Failed("timeout"))
  {
  }

  /** The `--timeout` text matters only through the number `setTimeout` makes
      of it: any two non-empty texts give the same outcome for every frame
      sequence. */
  lemma TimeoutTextMattersOnlyThroughNumber(o: Options, rtmUrl: Value, frames: seq<Frame>, coerced: nat, t: Value)
    requires Truthy(o.timeout) && Truthy(t)
    ensures WaitForText(o, rtmUrl, frames, coerced) == WaitForText(o.(timeout := t), rtmUrl, frames, coerced)
  {
  }

  /** Without `--timeout`, that number is ignored: the 30000 ms default alone
      decides, for every frame sequence. */
  lemma DefaultIgnoresCoercedNumber(o: Options, rtmUrl: Value, frames: seq<Frame>, c1: nat, c2: nat)
    requires !Truthy(o.timeout)
    ensures WaitForText(o, rtmUrl, frames, c1) == WaitForText(o, rtmUrl, frames, c2)
  {
  }
}
