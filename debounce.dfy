/** The press detector of isCorrectPressed / isWrongPressed (src/nback_task.cpp):
    each input channel keeps the last reading and the time it last changed, and
    reports a press on a released-to-pressed edge that comes more than the
    debounce delay after the previous change. */
module Debounce {

  /** The per-channel state: buttonCorrect, buttonWrong, touchCorrect, touchWrong. */
  datatype Channel = Channel(lastState: bool, lastDebounceTime: nat)

  /** What one poll of a channel returns and the channel state it leaves. */
  datatype Poll = Poll(pressed: bool, next: Channel)

  /** One poll at time `now` with reading `reading` (true = pressed). */
  function Step(ch: Channel, delay: nat, reading: bool, now: nat): (p: Poll)
    requires ch.lastDebounceTime <= now
    ensures p.next.lastState == reading
    ensures p.pressed <==> reading && !ch.lastState && now - ch.lastDebounceTime > delay
    ensures p.next.lastDebounceTime == if reading != ch.lastState then now else ch.lastDebounceTime
  {
    if now - ch.lastDebounceTime > delay && reading && !ch.lastState then
      Poll(true, Channel(reading, now))
    else if reading != ch.lastState then
      Poll(false, Channel(reading, now))
    else
      Poll(false, ch)
  }

  /** A reading and the time it was taken. */
  datatype Sample = Sample(reading: bool, time: nat)

  /** The samples come at non-decreasing times, none before the channel's last change. */
  predicate Chronological(ch: Channel, samples: seq<Sample>)
  {
    (|samples| > 0 ==> ch.lastDebounceTime <= samples[0].time)
    && forall i, j :: 0 <= i < j < |samples| ==> samples[i].time <= samples[j].time
  }

  /** The channel state after the first k samples have been polled. */
  function ChannelAt(ch: Channel, delay: nat, samples: seq<Sample>, k: nat): (c: Channel)
    requires Chronological(ch, samples) && k <= |samples|
    ensures k == 0 ==> c == ch
    ensures k > 0 ==> c.lastState == samples[k - 1].reading && c.lastDebounceTime <= samples[k - 1].time
    ensures c.lastDebounceTime >= ch.lastDebounceTime
  {
    if k == 0 then ch
    else
      var prev := ChannelAt(ch, delay, samples, k - 1);
      Step(prev, delay, samples[k - 1].reading, samples[k - 1].time).next
  }

  lemma ChannelAtBeforeSample(ch: Channel, delay: nat, samples: seq<Sample>, k: nat)
    requires Chronological(ch, samples) && k < |samples|
    ensures ChannelAt(ch, delay, samples, k).lastDebounceTime <= samples[k].time
  {
    if k > 0 {
      assert samples[k - 1].time <= samples[k].time;
    }
  }

  /** Whether the poll of sample k reports a press. */
  function PressedAt(ch: Channel, delay: nat, samples: seq<Sample>, k: nat): bool
    requires Chronological(ch, samples) && k < |samples|
  {
    ChannelAtBeforeSample(ch, delay, samples, k);
    Step(ChannelAt(ch, delay, samples, k), delay, samples[k].reading, samples[k].time).pressed
  }

  /** A reported press is a pressed reading, and the reading before it (if any) was released. */
  lemma PressIsEdge(ch: Channel, delay: nat, samples: seq<Sample>, k: nat)
    requires Chronological(ch, samples) && k < |samples| && PressedAt(ch, delay, samples, k)
    ensures samples[k].reading
    ensures k > 0 ==> !samples[k - 1].reading
    ensures k == 0 ==> !ch.lastState
  {
    ChannelAtBeforeSample(ch, delay, samples, k);
  }

  /** Two reported presses always have a released reading between them. */
  lemma ReleaseBetweenPresses(ch: Channel, delay: nat, samples: seq<Sample>, i: nat, j: nat)
    requires Chronological(ch, samples) && i < j < |samples|
    requires PressedAt(ch, delay, samples, i) && PressedAt(ch, delay, samples, j)
    ensures i < j - 1 && !samples[j - 1].reading
  {
    PressIsEdge(ch, delay, samples, i);
    PressIsEdge(ch, delay, samples, j);
  }

  /** The channel's change time never goes back, and a press stamps it with the press time. */
  lemma {:induction false} ChangeTimeAfterPress(ch: Channel, delay: nat, samples: seq<Sample>, i: nat, k: nat)
    requires Chronological(ch, samples) && i < k <= |samples|
    requires PressedAt(ch, delay, samples, i)
    ensures ChannelAt(ch, delay, samples, k).lastDebounceTime >= samples[i].time
    decreases k
  {
    ChannelAtBeforeSample(ch, delay, samples, i);
    if k > i + 1 {
      ChangeTimeAfterPress(ch, delay, samples, i, k - 1);
      ChannelAtBeforeSample(ch, delay, samples, k - 1);
      var prev := ChannelAt(ch, delay, samples, k - 1);
      assert ChannelAt(ch, delay, samples, k)
          == Step(prev, delay, samples[k - 1].reading, samples[k - 1].time).next;
      assert samples[i].time <= samples[k - 1].time;
    }
  }

  /** Two reported presses are more than the debounce delay apart. */
  lemma PressesSpaced(ch: Channel, delay: nat, samples: seq<Sample>, i: nat, j: nat)
    requires Chronological(ch, samples) && i < j < |samples|
    requires PressedAt(ch, delay, samples, i) && PressedAt(ch, delay, samples, j)
    ensures samples[j].time - samples[i].time > delay
  {
    ChangeTimeAfterPress(ch, delay, samples, i, j);
    ChannelAtBeforeSample(ch, delay, samples, j);
  }
}
