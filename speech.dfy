/** The speech rate limiter of process_frames: a two-field state machine
    (the last emotion spoken and when) that speaks the first face's emotion
    when it changed or when the cooldown has passed since it was last spoken. */
module Speech {
  import opened Wrappers
  import Config

  /** last_spoken_emotion and last_spoken_time (milliseconds). */
  datatype SpeechState = SpeechState(lastEmotion: Option<string>, lastTime: int)

  /** The state at start-up: nothing spoken, time 0. */
  const Initial: SpeechState := SpeechState(None, 0)

  /** One evaluation of the trigger: whether the speech toggle is on, the
      first face's emotion if there is a face, and the clock. */
  datatype Tick = Tick(enabled: bool, candidate: Option<string>, now: int)

  /** One announcement: the emotion and the time it was decided. */
  datatype Utterance = Utterance(emotion: string, at: int)

  /** The trigger condition. An empty label is false in Python and never fires. */
  predicate Fires(s: SpeechState, t: Tick)
  {
    && t.enabled
    && t.candidate.Some? && t.candidate.value != ""
    && (t.candidate != s.lastEmotion || t.now - s.lastTime > Config.SpeechCooldown)
  }

  /** The state after one evaluation of the trigger. */
  function Step(s: SpeechState, t: Tick): (r: SpeechState)
    ensures r != s <==> Fires(s, t)
    ensures Fires(s, t) ==> r.lastEmotion == t.candidate && r.lastTime == t.now
  {
    if Fires(s, t) then SpeechState(t.candidate, t.now) else s
  }

  /** A new label is announced at once, whatever the time. */
  lemma FiresOnChange(s: SpeechState, t: Tick)
    requires t.enabled && t.candidate.Some? && t.candidate.value != ""
    requires t.candidate != s.lastEmotion
    ensures Fires(s, t) && Step(s, t) == SpeechState(t.candidate, t.now)
  {
  }

  /** The label last spoken is announced again once the cooldown has passed. */
  lemma FiresAfterCooldown(s: SpeechState, t: Tick)
    requires t.enabled && t.candidate.Some? && t.candidate.value != ""
    requires t.now - s.lastTime > Config.SpeechCooldown
    ensures Fires(s, t) && Step(s, t) == SpeechState(t.candidate, t.now)
  {
  }

  /** The label last spoken is not announced again within the cooldown, and
      the state stays as it was. */
  lemma QuietWithinCooldown(s: SpeechState, t: Tick)
    requires t.candidate == s.lastEmotion
    requires t.now - s.lastTime <= Config.SpeechCooldown
    ensures !Fires(s, t) && Step(s, t) == s
  {
  }

  /** What one evaluation of the trigger announces: its candidate, when it fires. */
  function Said(s: SpeechState, t: Tick): (said: seq<Utterance>)
    ensures |said| <= 1
    ensures said != [] <==> Fires(s, t)
    ensures said != [] ==> said[0] == Utterance(t.candidate.value, t.now)
  {
    if Fires(s, t) then [Utterance(t.candidate.value, t.now)] else []
  }

  /** The state and the announcements after a run of evaluations. */
  function Replay(s: SpeechState, ticks: seq<Tick>): (r: (SpeechState, seq<Utterance>))
  {
    if ticks == [] then (s, [])
    else
      var (mid, said) := Replay(s, ticks[..|ticks| - 1]);
      var t := ticks[|ticks| - 1];
      (Step(mid, t), said + Said(mid, t))
  }

  /** A run extended by one evaluation takes one more step. */
  lemma ReplaySnoc(s: SpeechState, ticks: seq<Tick>, t: Tick)
    ensures var (mid, said) := Replay(s, ticks);
            Replay(s, ticks + [t]) == (Step(mid, t), said + Said(mid, t))
  {
    assert (ticks + [t])[..|ticks|] == ticks;
  }

  /** The state a run ends in remembers its last announcement; with no
      announcement it is the state the run started in. */
  lemma {:induction false} ReplayRemembersLast(s: SpeechState, ticks: seq<Tick>)
    ensures var (fin, said) := Replay(s, ticks);
            if said == [] then fin == s
            else fin == SpeechState(Some(said[|said| - 1].emotion), said[|said| - 1].at)
  {
    if ticks != [] {
      ReplayRemembersLast(s, ticks[..|ticks| - 1]);
    }
  }

  /** Two announcements in a row of one label are more than the cooldown
      apart; the first one of a run is so with respect to the state the run
      started in. */
  ghost predicate Spaced(s: SpeechState, said: seq<Utterance>)
  {
    && (|said| > 0 && s.lastEmotion == Some(said[0].emotion) ==> said[0].at - s.lastTime > Config.SpeechCooldown)
    && forall k :: 0 <= k < |said| - 1 && said[k].emotion == said[k + 1].emotion ==>
         said[k + 1].at - said[k].at > Config.SpeechCooldown
  }

  /** Every run of the limiter is spaced: it never speaks one label twice
      in a row within the cooldown. */
  lemma {:induction false} ReplaySpaced(s: SpeechState, ticks: seq<Tick>)
    ensures Spaced(s, Replay(s, ticks).1)
  {
    if ticks != [] {
      var prefix := ticks[..|ticks| - 1];
      ReplaySpaced(s, prefix);
      ReplayRemembersLast(s, prefix);
      var (mid, said) := Replay(s, prefix);
      var t := ticks[|ticks| - 1];
      if Fires(mid, t) {
        var u := Utterance(t.candidate.value, t.now);
        var said' := said + [u];
        assert Replay(s, ticks).1 == said';
        forall k | 0 <= k < |said'| - 1 && said'[k].emotion == said'[k + 1].emotion
          ensures said'[k + 1].at - said'[k].at > Config.SpeechCooldown
        {
          if k == |said| - 1 {
            assert mid == SpeechState(Some(said[k].emotion), said[k].at);
          } else {
            assert said'[k] == said[k] && said'[k + 1] == said[k + 1];
          }
        }
      }
    }
  }
}
