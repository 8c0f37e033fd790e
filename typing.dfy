/** The typing reveal of a new bot reply (src/components/TypingText.tsx):
    every firing of a 25 ms interval shows one more character; at the end the
    interval is cleared and the reply's `isNew` flag is turned off in the log.
    Timer firings are modelled as discrete ticks, and the reply's object
    identity by its position in the log. */
module Typing {
  import opened Types
  import opened Conversation

  /** The reveal loop's state: the counter `i`, the `displayed` text, and
      whether the interval is still scheduled. */
  datatype Reveal = Reveal(i: nat, displayed: string, running: bool)

  /** The state the effect starts from: `setDisplayed("")`, `i = 0`, and a
      freshly scheduled interval. */
  const Start: Reveal := Reveal(0, "", true)

  /** `text.charAt(i)`: the character at `i`, or "" past the end. */
  function CharAt(text: string, i: nat): string {
    if i < |text| then [text[i]] else ""
  }

  /** One firing of the interval: append `text.charAt(i)`, increment `i`, and
      clear the interval once `i >= text.length`. A cleared interval no longer
      fires. */
  function Step(text: string, r: Reveal): Reveal {
    if !r.running then r
    else
      var i := r.i + 1;
      Reveal(i, r.displayed + CharAt(text, r.i), !(i >= |text|))
  }

  /** The state after `k` firings. */
  function Run(text: string, k: nat): Reveal {
    if k == 0 then Start else Step(text, Run(text, k - 1))
  }

  /** How many firings the reveal takes: one per character, and one for an
      empty text (the first firing already finds `i >= 0`). */
  function TickCount(text: string): nat {
    if |text| == 0 then 1 else |text|
  }

  /** Before the last firing the reveal shows exactly the first `k` characters
      and is still running; from the last firing on it shows the whole text
      and has stopped. */
  lemma {:induction false} RunSpec(text: string, k: nat)
    ensures k < TickCount(text) ==> Run(text, k) == Reveal(k, text[..k], true)
    ensures k >= TickCount(text) ==> Run(text, k) == Reveal(TickCount(text), text, false)
  {
    if k > 0 {
      RunSpec(text, k - 1);
      if k - 1 < TickCount(text) && |text| > 0 {
        assert text[..k - 1] + [text[k - 1]] == text[..k];
      }
      if k == |text| {
        assert text[..k] == text;
      }
    }
  }

  /** The interval is cleared on the firing numbered `TickCount(text)` and on
      no other, and by then the whole text is on screen. */
  lemma StopsOnLastTick(text: string, k: nat)
    ensures (Run(text, k).running && !Run(text, k + 1).running) <==> k + 1 == TickCount(text)
    ensures k + 1 == TickCount(text) ==> Run(text, k + 1).displayed == text
  {
    RunSpec(text, k);
    RunSpec(text, k + 1);
  }

  /** One firing as the code is written, when React applies the `setDisplayed`
      updater at the next render rather than when it is queued: by then `i++`
      has run, so the updater reads the incremented counter and appends
      `text.charAt(i + 1)`. */
  function StepQueued(text: string, r: Reveal): Reveal {
    if !r.running then r
    else
      var i := r.i + 1;
      Reveal(i, r.displayed + CharAt(text, i), !(i >= |text|))
  }

  /** The state after `k` firings with the queued updater. */
  function RunQueued(text: string, k: nat): Reveal {
    if k == 0 then Start else StepQueued(text, RunQueued(text, k - 1))
  }

  /** With the queued updater the reveal stops on the same firing, but before
      it the text shown is characters 1 to `k` (the first one is skipped), and
      at the end everything but the first character. */
  lemma {:induction false} RunQueuedSpec(text: string, k: nat)
    ensures k < TickCount(text) ==>
              RunQueued(text, k) == Reveal(k, if k == 0 then "" else text[1..k + 1], true)
    ensures k >= TickCount(text) ==>
              RunQueued(text, k) == Reveal(TickCount(text), if |text| == 0 then "" else text[1..], false)
  {
    if k > 0 {
      RunQueuedSpec(text, k - 1);
      if k < TickCount(text) && k > 1 {
        assert text[1..k] + [text[k]] == text[1..k + 1];
      }
      if k == |text| && k > 1 {
        assert text[1..k] == text[1..];
      }
    }
  }

  /** With the queued updater a reply of one or more characters never has its
      first character on screen during the reveal, and the reveal ends one
      character short. */
  lemma QueuedRevealDropsFirstCharacter(text: string, k: nat)
    requires |text| >= 1
    ensures RunQueued(text, TickCount(text)).displayed == text[1..]
    ensures RunQueued(text, TickCount(text)).displayed != text
    ensures forall j :: 0 <= j < |RunQueued(text, k).displayed| ==>
              j + 1 < |text| && RunQueued(text, k).displayed[j] == text[j + 1]
  {
    RunQueuedSpec(text, TickCount(text));
    RunQueuedSpec(text, k);
    assert |text[1..]| < |text|;
  }

  /** The completion update `prev.map((m) => (m === message ? {...m, isNew:
      false} : m))`, matching the reply by its position `target` and its value
      instead of by identity. */
  function MarkSettled(log: seq<Message>, target: nat, message: Message): (r: seq<Message>)
    ensures |r| == |log|
    ensures forall k :: 0 <= k < |r| && k != target ==> r[k] == log[k]
    ensures target < |log| && log[target] == message ==>
              r[target] == Message(message.from, message.text, false)
    ensures !(target < |log| && log[target] == message) ==> r == log
  {
    if target < |log| && log[target] == message then log[target := log[target].(isNew := false)]
    else log
  }

  /** After completion the reply is shown as plain text, its whole text, no
      other entry changes how it is shown, and a log whose new entries are all
      bot replies stays so. */
  lemma SettlingEndsTyping(log: seq<Message>, target: nat, message: Message)
    requires target < |log| && log[target] == message
    ensures !ShowsTyping(MarkSettled(log, target, message)[target])
    ensures MarkSettled(log, target, message)[target].text == message.text
    ensures forall k :: 0 <= k < |log| && k != target ==>
              ShowsTyping(MarkSettled(log, target, message)[k]) == ShowsTyping(log[k])
    ensures NewOnlyForBot(log) ==> NewOnlyForBot(MarkSettled(log, target, message))
  {
    var r := MarkSettled(log, target, message);
    if NewOnlyForBot(log) {
      forall k | 0 <= k < |r| ensures r[k].isNew ==> r[k].from == Bot {
        if k != target {
          assert r[k] == log[k];
        }
      }
    }
  }

  /** One mounted `TypingText` for the reply at position `target` of the
      page's log. */
  class TypingText {
    const page: ChatPage
    var message: Message
    var target: nat
    var i: nat
    var displayed: string
    var running: bool

    function State(): Reveal
      reads this
    {
      Reveal(i, displayed, running)
    }

    /** Mounting runs the effect: reset and schedule the interval. */
    constructor (page: ChatPage, message: Message, target: nat)
      ensures this.page == page && this.message == message && this.target == target
      ensures State() == Start
    {
      this.page := page;
      this.message := message;
      this.target := target;
      i, displayed, running := 0, "", true;
    }

    /** One firing of the interval; the last one also settles the reply in the
        page's log. Once the interval is cleared nothing happens. */
    method Tick()
      modifies this`i, this`displayed, this`running, page`messages
      ensures State() == Step(message.text, old(State()))
      ensures page.messages == if old(running) && !running
                               then MarkSettled(old(page.messages), target, message)
                               else old(page.messages)
      ensures !old(running) ==> State() == old(State()) && page.messages == old(page.messages)
    {
      if !running {
        return;
      }
      displayed := displayed + CharAt(message.text, i);
      i := i + 1;
      if i >= |message.text| {
        running := false;
        page.messages := MarkSettled(page.messages, target, message);
      }
    }

    /** The effect's cleanup (unmount, or a change of `message`): the interval
        is cleared, so no later tick changes the text or the log. */
    method Cleanup()
      modifies this`running
      ensures !running && i == old(i) && displayed == old(displayed)
    {
      running := false;
    }

    /** A new `message` prop: the old interval is cleaned up and the effect
        starts over for the new reply. */
    method Restart(message: Message, target: nat)
      modifies this
      ensures this.message == message && this.target == target
      ensures State() == Start
    {
      Cleanup();
      this.message, this.target := message, target;
      i, displayed, running := 0, "", true;
    }

    /** Lets the interval fire until it clears itself: it fires
        `TickCount(text)` times, ends with the whole text shown, and settles
        the reply once. */
    method Animate() returns (ticks: nat)
      requires State() == Start
      modifies this`i, this`displayed, this`running, page`messages
      ensures ticks == TickCount(message.text)
      ensures State() == Reveal(TickCount(message.text), message.text, false)
      ensures page.messages == MarkSettled(old(page.messages), target, message)
    {
      ticks := 0;
      RunSpec(message.text, 0);
      while running
        invariant ticks <= TickCount(message.text)
        invariant State() == Run(message.text, ticks)
        invariant running <==> ticks < TickCount(message.text)
        invariant page.messages == if running then old(page.messages)
                                   else MarkSettled(old(page.messages), target, message)
        decreases TickCount(message.text) - ticks
      {
        Tick();
        ticks := ticks + 1;
        RunSpec(message.text, ticks);
      }
      RunSpec(message.text, ticks);
    }
  }
}
